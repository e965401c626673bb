/** What the snapshot store's own checks let through: rollback into a damaged version or a build
    directory, and a lookup that straddles a publish. */
module SnapshotHazards {
  import opened Names
  import opened Rules
  import opened Rendering
  import opened Paths
  import opened Disks
  import opened SnapshotSets
  import opened SnapshotStores
  import opened Dedup
  import opened SnapshotSafety
  import opened SnapshotRuns
  import opened PartialRemovals

  // ----- rollback into a damaged version -----

  /** Rollback asks only for the manifest. If pruning version v stopped after removing a
      file that the manifest names, Rollback still accepts v, and readers are then sent to a
      set with that file missing. */
  lemma RollbackIntoDamagedVersion(root: Root, v: string, t: string, n: string, e: ListEntry)
    requires Safe(root) && Ordinary(v) && CanRollback(root, v)
    requires FindEntry(root[v].files[MANIFEST].manifest, t, n) == Some(e) && Target(t, n, e) != MANIFEST
    ensures var damaged := Do(root, Unlink(v, Target(t, n, e)));
            var rolled := Run(damaged, PointPlan(v));
            && CanRollback(damaged, v) && !ReaderSafe(rolled)
            && LookupFile(rolled, t, n) == Ok(FileRef(v, Target(t, n, e), e))
            && ContentAt(rolled, In(v, Target(t, n, e))) == None
  {
    var rel := Target(t, n, e);
    var damaged := Do(root, Unlink(v, rel));
    assert Complete(root[v].files);
    assert damaged[v].files[MANIFEST] == root[v].files[MANIFEST];
    PointEffect(damaged, v);
    var rolled := Run(damaged, PointPlan(v));
    assert rolled[v] == damaged[v];
    assert ManifestAt(rolled, v) == Some(root[v].files[MANIFEST].manifest);
    assert !Resolves(rolled[v].files, rel, e.etag);
  }

  // ----- rollback into a build directory -----

  /** Rollback accepts the directory of a build that died after writing its manifest, because
      it does not look at the name; the first call of the next Begin of that version then
      deletes what readers are being served. */
  lemma RollbackIntoBuildDirectory(site: Site, d: Draft, files: seq<ListFile>, root: Root)
    requires Safe(root) && Empty(d) && Addable(files) && Ordinary(d.version)
    ensures var dir := BuildDir(d.version);
            var dead := Run(root, BuildPlan(site, d, files) + ManifestPlan(DraftAfter(d, files)));
            var rolled := Run(dead, PointPlan(dir));
            && Safe(dead) && Accepts(site, dead, dir)
            && Published(rolled) == Some((dir, Dir(FinalFiles(site, d, files))))
            && CurrentOf(Do(rolled, RemoveAll(dir))) == Some(dir) && !CanRollback(Do(rolled, RemoveAll(dir)), dir)
  {
    var dir := BuildDir(d.version);
    var dead := Run(root, BuildPlan(site, d, files) + ManifestPlan(DraftAfter(d, files)));
    PreparedAlong(site, d, files, root);
    BuildDirIsNotOrdinary(d.version);
    BuildDirIsPlain(d.version);
    PlainAccepted(site, dead, dir);
    RolledInto(dead, dir, FinalFiles(site, d, files));
  }

  lemma BuildDirIsPlain(v: string)
    requires Ordinary(v)
    ensures PlainName(BuildDir(v)) && TrimSpace(BuildDir(v)) == BuildDir(v)
  {
    var dir := BuildDir(v);
    NothingTrimmed(v);
    NothingTrimmed(dir);
    assert dir[0] == '.' && dir[|dir| - 1] == v[|v| - 1];
    assert forall c :: c in dir ==> c in ".building-" || c in v;
  }

  lemma RolledInto(dead: Root, dir: string, files: map<string, Content>)
    requires dir in dead && dead[dir] == Dir(files) && dir != "" && TrimSpace(dir) == dir && dir != CURRENT && dir != CURRENT + ".tmp"
    ensures var rolled := Run(dead, PointPlan(dir));
            Published(rolled) == Some((dir, Dir(files)))
            && CurrentOf(Do(rolled, RemoveAll(dir))) == Some(dir) && !CanRollback(Do(rolled, RemoveAll(dir)), dir)
  {
    PointEffect(dead, dir);
  }

  // ----- a lookup that straddles a publish -----

  /** Lookup reads the current file once for the manifest and once for the path. If it changes in
      between, the entry comes from the first set and the path is looked for in the second.
      Nothing else is asked of the second set, not even that it has the key. */
  lemma LookupAcrossPublish(first: Root, second: Root, t: string, n: string, was: FileRef)
    requires LookupFile(first, t, n) == Ok(was)
    ensures LookupAcross(first, second, t, n) ==
            match CurrentOf(second)
            case None => Err(SnapError.NoCurrent)
            case Some(v) => Ok(FileRef(v, was.rel, was.entry))
  {
  }

  /** The exact condition under which such an answer leads to a file with the ETag handed out:
      some key of the second set, not necessarily the one looked up, leads to that path with
      that ETag. */
  lemma LookupAcrossResolvesIff(second: Root, was: FileRef)
    requires Safe(second) && CurrentOf(second).Some?
    ensures var v := CurrentOf(second).value;
            && CanRollback(second, v) && ManifestAt(second, v).Some?
            && (Resolves(second[v].files, was.rel, was.entry.etag) <==>
                exists t, n :: LeadsTo(ManifestAt(second, v).value, t, n, was.rel, was.entry.etag))
  {
    var v := CurrentOf(second).value;
    var files := second[v].files;
    assert Complete(files);
    if Resolves(files, was.rel, was.entry.etag) {
      var t, n :| LeadsTo(files[MANIFEST].manifest, t, n, was.rel, files[was.rel].body.checksum);
    }
    if t, n :| LeadsTo(files[MANIFEST].manifest, t, n, was.rel, was.entry.etag) {
      assert Resolves(files, was.rel, was.entry.etag);
    }
  }

  function ListOf(name: string, b: Body): ListFile {
    ListFile("", name, Header("", "", "", "", []), b)
  }

  lemma TwoListsAddable(x: Body, y: Body)
    ensures Addable([ListOf("a.txt", x), ListOf("b.txt", y)])
  {
    var a, b := ListOf("a.txt", x), ListOf("b.txt", y);
    FirstsAreAdded([a, b]);
    assert forall f :: f in [a, b] ==> f == a || f == b;
    assert "a.txt"[0] == 'a' && "b.txt"[0] == 'b' && MANIFEST[0] == 'm';
    assert |GzipPath("a.txt")| == 8 && |GzipPath("b.txt")| == 8;
  }

  /** A set of two lists: the second shares the file of the first exactly when the content is
      the same. */
  lemma TwoLists(d: Draft, x: Body, y: Body)
    requires Empty(d)
    ensures var m := ManifestOf(DraftAfter(d, [ListOf("a.txt", x), ListOf("b.txt", y)]));
            && FindEntry(m, "", "a.txt") == Some(ListEntry(x.checksum, x.entries, ""))
            && FindEntry(m, "", "b.txt") == Some(ListEntry(y.checksum, y.entries, if x.checksum == y.checksum then "a.txt" else ""))
  {
    var a, b := ListOf("a.txt", x), ListOf("b.txt", y);
    var one := Added(d, "", "a.txt", x);
    assert [a, b][..1] == [a] && [a][..0] == [];
    assert DraftAfter(d, [a]) == one && DraftAfter(d, [a, b]) == Added(one, "", "b.txt", y);
    assert "a.txt"[0] != "b.txt"[0];
    AddedRemembers(d, a);
    EntryAfter(d, a, "", "a.txt");
    EntryAfter(one, b, "", "a.txt");
    EntryAfter(one, b, "", "b.txt");
  }

  /** The same key with the same ETag in both sets is not enough: in the first set b.txt shares
      the file of a.txt, in the second a.txt has new content and b.txt has its own file. The
      answer pairs the old ETag with the new a.txt. */
  lemma SameETagAcrossPublish(site: Site, d1: Draft, d2: Draft, x: Body, y: Body, first: Root, second: Root)
    requires Empty(d1) && Empty(d2) && d1.version != "" && d2.version != "" && x.checksum != y.checksum
    requires CurrentOf(first) == Some(d1.version) && d1.version in first
    requires first[d1.version] == Dir(FinalFiles(site, d1, [ListOf("a.txt", x), ListOf("b.txt", x)]))
    requires CurrentOf(second) == Some(d2.version) && d2.version in second
    requires second[d2.version] == Dir(FinalFiles(site, d2, [ListOf("a.txt", y), ListOf("b.txt", x)]))
    ensures LookupFile(first, "", "b.txt") == Ok(FileRef(d1.version, "a.txt", ListEntry(x.checksum, x.entries, "a.txt")))
    ensures LookupFile(second, "", "b.txt") == Ok(FileRef(d2.version, "b.txt", ListEntry(x.checksum, x.entries, "")))
    ensures LookupAcross(first, second, "", "b.txt") == Ok(FileRef(d2.version, "a.txt", ListEntry(x.checksum, x.entries, "a.txt")))
    ensures Resolves(second[d2.version].files, "a.txt", y.checksum) && !Resolves(second[d2.version].files, "a.txt", x.checksum)
  {
    TwoLists(d1, x, x);
    TwoLists(d2, y, x);
    TwoListsAddable(x, x);
    TwoListsAddable(y, x);
    var before, later := [ListOf("a.txt", x), ListOf("b.txt", x)], [ListOf("a.txt", y), ListOf("b.txt", x)];
    assert before[1] in before && later[1] in later && later[0] in later;
    LookupInFinal(site, d1, before, first, before[1]);
    LookupInFinal(site, d2, later, second, later[1]);
    FinalEntry(site, d2, later, later[0]);
    LookupAcrossPublish(first, second, "", "b.txt", LookupFile(first, "", "b.txt").value);
  }
}
