/** Which version directories an operation can leave behind, wherever it is cut off: the ones that
    were there, and for a publish its own finished set. */
module VersionDirs {
  import opened Names
  import opened Rules
  import opened Disks
  import opened SnapshotSets
  import opened SnapshotStores
  import opened Dedup
  import opened SnapshotSafety
  import opened SnapshotRuns
  import opened PartialRemovals

  /** The call can only take version directories away. */
  predicate Shrinks(c: Call) {
    c.RemoveAll? || forall n :: n in Touches(c) ==> !Ordinary(n)
  }

  ghost predicate Shrunk(a: Root, b: Root) {
    forall v :: Ordinary(v) && v in b ==> v in a && a[v] == b[v]
  }

  lemma ShrinkOne(root: Root, c: Call)
    requires Shrinks(c)
    ensures Shrunk(root, Do(root, c))
  {
    DoTouches(root, c);
  }

  lemma {:induction false} ShrinkAlong(root: Root, calls: seq<Call>, n: nat)
    requires n <= |calls| && forall c :: c in calls ==> Shrinks(c)
    ensures Shrunk(root, Run(root, calls[..n]))
  {
    if n > 0 {
      ShrinkAlong(root, calls, n - 1);
      assert calls[..n][..n - 1] == calls[..n - 1];
      assert calls[n - 1] in calls;
      ShrinkOne(Run(root, calls[..n - 1]), calls[n - 1]);
    }
  }

  lemma PointShrinks(v: string)
    ensures forall c :: c in PointPlan(v) ==> Shrinks(c)
  {
    var tmp := CURRENT + ".tmp";
    assert PointPlan(v) == [Create(Top(tmp)), Fill(Top(tmp), CurrentDoc(v)), Rename(Top(tmp), Top(CURRENT))];
  }

  /** All of a publish but the move of the build directory. */
  lemma PrepareShrinks(site: Site, d: Draft, files: seq<ListFile>)
    ensures forall c :: c in BuildPlan(site, d, files) ==> Shrinks(c)
    ensures forall c :: c in ManifestPlan(DraftAfter(d, files)) ==> Shrinks(c)
  {
    BuildStaysInside(site, d, files);
    BuildDirIsNotOrdinary(d.version);
    forall c | c in BuildPlan(site, d, files) || c in ManifestPlan(DraftAfter(d, files)) ensures Shrinks(c) {
      assert Inside(c, BuildDir(d.version));
    }
  }

  /** Old directories, or the finished set under the publish's own version. */
  ghost predicate OldOrOwn(before: Root, after: Root, v: string, files: map<string, Content>) {
    forall x :: Ordinary(x) && x in after ==> (x in before && after[x] == before[x]) || (x == v && after[x] == Dir(files))
  }

  lemma OldOrOwnThenShrunk(before: Root, mid: Root, after: Root, v: string, files: map<string, Content>)
    requires OldOrOwn(before, mid, v, files) && Shrunk(mid, after)
    ensures OldOrOwn(before, after, v, files)
  {
  }

  /** Up to the move, and after it. */
  lemma MovedDirs(site: Site, d: Draft, files: seq<ListFile>, root: Root)
    requires Ordinary(d.version)
    ensures var prep := BuildPlan(site, d, files) + ManifestPlan(DraftAfter(d, files));
            OldOrOwn(root, Run(root, prep + InstallPlan(d.version)), d.version, FinalFiles(site, d, files))
  {
    var prep, final := BuildPlan(site, d, files) + ManifestPlan(DraftAfter(d, files)), FinalFiles(site, d, files);
    BuildDirIsNotOrdinary(d.version);
    PreparedEffect(site, d, files, root);
    RunConcat(root, prep, InstallPlan(d.version));
    InstallEffect(Run(root, prep), d.version, final);
  }

  lemma ShrinkAfter(root: Root, moved: seq<Call>, rest: seq<Call>, n: nat, v: string, files: map<string, Content>)
    requires OldOrOwn(root, Run(root, moved), v, files) && (forall c :: c in rest ==> Shrinks(c)) && |moved| <= n <= |moved + rest|
    ensures OldOrOwn(root, Run(root, (moved + rest)[..n]), v, files)
  {
    var k := n - |moved|;
    assert (moved + rest)[..n] == moved + rest[..k];
    ShrinkAlong(Run(root, moved), rest, k);
    RunConcat(root, moved, rest[..k]);
    OldOrOwnThenShrunk(root, Run(root, moved), Run(root, (moved + rest)[..n]), v, files);
  }

  lemma ShrinkBefore(root: Root, front: seq<Call>, rest: seq<Call>, n: nat)
    requires (forall c :: c in front ==> Shrinks(c)) && n <= |front|
    ensures Shrunk(root, Run(root, (front + rest)[..n]))
  {
    assert (front + rest)[..n] == front[..n];
    ShrinkAlong(root, front, n);
  }

  lemma CommitInParts(site: Site, d: Draft, files: seq<ListFile>)
    requires DraftAfter(d, files).lists != map[]
    ensures var prep, v := BuildPlan(site, d, files) + ManifestPlan(DraftAfter(d, files)), d.version;
            && PublishPlan(site, d, files) == (prep + InstallPlan(v)) + PointPlan(v)
            && PublishPlan(site, d, files) == (prep + [RemoveAll(v)]) + ([RenameDir(BuildDir(v), v)] + PointPlan(v))
  {
    PlanInTwo(site, d, files);
    assert InstallPlan(d.version) == [RemoveAll(d.version)] + [RenameDir(BuildDir(d.version), d.version)];
  }

  lemma CommittedDirs(site: Site, d: Draft, files: seq<ListFile>, root: Root, n: nat)
    requires Ordinary(d.version) && DraftAfter(d, files).lists != map[] && n <= |PublishPlan(site, d, files)|
    ensures OldOrOwn(root, Run(root, PublishPlan(site, d, files)[..n]), d.version, FinalFiles(site, d, files))
  {
    var v := d.version;
    var prep := BuildPlan(site, d, files) + ManifestPlan(DraftAfter(d, files));
    CommitInParts(site, d, files);
    if n <= |prep| + 1 {
      PrepareShrinks(site, d, files);
      ShrinkBefore(root, prep + [RemoveAll(v)], [RenameDir(BuildDir(v), v)] + PointPlan(v), n);
    } else {
      MovedDirs(site, d, files, root);
      PointShrinks(v);
      ShrinkAfter(root, prep + InstallPlan(v), PointPlan(v), n, v, FinalFiles(site, d, files));
    }
  }

  /** Wherever a publish stops, whatever it began with. */
  lemma PublishedDirs(site: Site, d: Draft, files: seq<ListFile>, root: Root, n: nat)
    requires Ordinary(d.version) && n <= |PublishPlan(site, d, files)|
    ensures OldOrOwn(root, Run(root, PublishPlan(site, d, files)[..n]), d.version, FinalFiles(site, d, files))
  {
    if DraftAfter(d, files).lists != map[] {
      CommittedDirs(site, d, files, root, n);
    } else {
      PrepareShrinks(site, d, files);
      assert BuildPlan(site, d, files) + [] == BuildPlan(site, d, files);
      ShrinkAlong(root, BuildPlan(site, d, files), n);
    }
  }

  /** The other operations only take directories away. */
  lemma OtherActionsShrink(site: Site, root: Root, a: Action)
    requires !a.Publish?
    ensures forall c :: c in PlanOf(site, root, a) ==> Shrinks(c)
  {
    match a
    case Rollback(v) => PointShrinks(v);
    case Prune(keep) =>
    case Discard(v) =>
  }
}
