/** Rollback takes a name, cleans it to look for the directory, and writes it down as it was given.
    Prune later compares what was written with the names of the directories. */
module RollbackNames {
  import opened Names
  import opened Rules
  import opened Paths
  import opened Disks
  import opened SnapshotSets
  import opened SnapshotStores
  import opened Dedup
  import opened SnapshotSafety
  import opened SnapshotRuns
  import opened PartialRemovals
  import opened Pruning

  /** A root as a file system has them: entries have plain names, and the two names that the
      store uses for the current file are not directories. */
  ghost predicate ProperRoot(root: Root) {
    && (forall n :: n in root ==> PlainName(n))
    && (forall n :: n in {CURRENT, CURRENT + ".tmp"} && n in root ==> root[n].Plain?)
  }

  // ----- what readers are served under any spelling -----

  /** The directory readers are sent to. */
  ghost function Served(base: seq<string>, root: Root): Option<(string, Node)> {
    match CurrentOf(root)
    case None => None
    case Some(v) => if DirOf(base, v) in root then Some((DirOf(base, v), root[DirOf(base, v)])) else None
  }

  ghost predicate WholeSetServed(base: seq<string>, root: Root) {
    Served(base, root).Some? && Served(base, root).value.1.Dir? && Complete(Served(base, root).value.1.files)
  }

  /** Then a lookup fails only for a key that is not in the set, and otherwise leads to a whole
      file with the ETag. */
  lemma ServedMeansReadable(base: seq<string>, root: Root, t: string, n: string)
    requires WholeSetServed(base, root)
    ensures match LookupThrough(base, root, t, n)
            case Err(e) => e == SnapError.NotInSet
            case Ok(ref) => Served(base, root).value.0 == ref.version && Resolves(root[ref.version].files, ref.rel, ref.entry.etag)
  {
  }

  /** Where the current file names an ordinary version, spelling is not an issue. */
  lemma OrdinaryLookup(base: seq<string>, root: Root, t: string, n: string)
    requires CurrentGood(root)
    ensures LookupThrough(base, root, t, n) == LookupFile(root, t, n)
    ensures Served(base, root) == Published(root)
    ensures CurrentOf(root).Some? ==> (WholeSetServed(base, root) <==> ReaderSafe(root))
  {
    if CURRENT in root { PlainDir(base, root[CURRENT].content.version); }
  }

  // ----- when rollback is safe -----

  /** Among the names that are accepted the ordinary ones are those that Versions lists. */
  lemma OrdinaryIsListed(site: Site, root: Root, v: string)
    requires ProperRoot(root) && Accepts(site, root, v)
    ensures Ordinary(v) <==> v in VersionNames(root) && TrimSpace(v) == v
  {
    if Ordinary(v) { PlainAccepted(site, root, v); }
  }

  lemma PointedNameIsCurrent(root: Root, v: string)
    ensures var after := Run(root, PointPlan(v));
            CURRENT in after && after[CURRENT] == Plain(CurrentDoc(v))
            && CurrentOf(after) == if TrimSpace(v) == "" then None else Some(TrimSpace(v))
  {
    PointEffect(root, v);
  }

  /** With every manifested version complete, a rollback that the code accepts is safe at every
      point if and only if the name is one that Versions lists, letter for letter, and has no
      white space at its ends. Build directories and other spellings are accepted too. */
  lemma RollbackSafeIff(site: Site, root: Root, v: string)
    requires Safe(root) && ProperRoot(root) && Accepts(site, root, v)
    ensures SafeAlong(root, PointPlan(v)) <==> v in VersionNames(root) && TrimSpace(v) == v
  {
    OrdinaryIsListed(site, root, v);
    if Ordinary(v) {
      PlainAccepted(site, root, v);
      PointAlong(root, v);
    } else {
      PointedNameIsCurrent(root, v);
      UnsafeAt(root, PointPlan(v), PointPlan(v));
    }
  }

  lemma PointKeepsDirectories(root: Root, v: string)
    requires ProperRoot(root)
    ensures var after := Run(root, PointPlan(v));
            && (forall d :: d in after && after[d].Dir? <==> d in root && root[d].Dir?)
            && (forall d :: d in root && root[d].Dir? ==> after[d] == root[d])
            && VersionNames(after) == VersionNames(root)
  {
    PointEffect(root, v);
  }

  /** Whatever removals left behind, readers are served a whole set after a rollback that the
      code accepts if and only if the trimmed name leads to a version that has every file its
      manifest names. The code looks at the manifest alone. */
  lemma RollbackServesIff(site: Site, root: Root, v: string)
    requires ProperRoot(root) && Accepts(site, root, v)
    ensures var d := DirOf(site.base, TrimSpace(v));
            WholeSetServed(site.base, Run(root, PointPlan(v))) <==>
            TrimSpace(v) != "" && CanRollback(root, d) && Complete(root[d].files)
  {
    PointedNameIsCurrent(root, v);
    PointKeepsDirectories(root, v);
  }

  // ----- a rollback and then a prune -----

  lemma ListedIsPlain(base: seq<string>, root: Root, v: string)
    requires ProperRoot(root) && v in VersionNames(root)
    ensures PlainName(v) && DirOf(base, v) == v
  {
    PlainDir(base, v);
  }

  lemma PruneSparesCurrentFile(root: Root, keep: nat)
    requires CURRENT in root && root[CURRENT].Plain?
    ensures var after := Run(root, Removals(PruneTargets(root, keep)));
            CURRENT in after && after[CURRENT] == root[CURRENT] && CurrentOf(after) == CurrentOf(root)
  {
    PruneKeepsExactly(root, keep, CURRENT);
    RemovalsEffect(root, PruneTargets(root, keep), CURRENT);
  }

  /** A version that readers are served under a name v stays while a prune goes on if and only if
      v is its name in the listing, or fewer than `keep` versions are newer. */
  lemma PruneAfterRollback(base: seq<string>, root: Root, v: string, keep: nat)
    requires ProperRoot(root) && TrimSpace(v) != ""
    requires var d := DirOf(base, TrimSpace(v)); d in VersionNames(root) && Complete(root[d].files)
    ensures var d := DirOf(base, TrimSpace(v));
            var rolled := Run(root, PointPlan(v));
            var after := Run(rolled, Removals(PruneTargets(rolled, keep)));
            && WholeSetServed(base, rolled) && CurrentOf(after) == Some(TrimSpace(v))
            && (d in after <==> TrimSpace(v) == d || |NewerThan(root, d)| < keep)
            && (d in after ==> after[d] == root[d])
  {
    var d, rolled := DirOf(base, TrimSpace(v)), Run(root, PointPlan(v));
    PointedNameIsCurrent(root, v);
    PointKeepsDirectories(root, v);
    PruneSparesCurrentFile(rolled, keep);
    PruneKeepsExactly(rolled, keep, d);
    RemovalsEffect(rolled, PruneTargets(rolled, keep), d);
    PruneTargetsExactly(rolled, keep, d);
    assert NewerThan(rolled, d) == NewerThan(root, d);
  }

  /** Rollback and then Prune, exactly: for a name that leads to a whole version, the set being
      served survives if and only if the trimmed name is itself in the listing, or the version it
      leads to has fewer than `keep` newer ones. */
  lemma RollbackThenPruneIff(site: Site, root: Root, v: string, keep: nat)
    requires ProperRoot(root) && TrimSpace(v) != ""
    requires var d := DirOf(site.base, TrimSpace(v)); d in VersionNames(root) && Complete(root[d].files)
    ensures var d := DirOf(site.base, TrimSpace(v));
            var rolled := Run(root, PointPlan(v));
            var after := Run(rolled, Removals(PruneTargets(rolled, keep)));
            WholeSetServed(site.base, rolled)
            && (WholeSetServed(site.base, after) <==> TrimSpace(v) in VersionNames(root) || |NewerThan(root, d)| < keep)
  {
    PruneAfterRollback(site.base, root, v, keep);
    if TrimSpace(v) in VersionNames(root) { ListedIsPlain(site.base, root, TrimSpace(v)); }
  }

  lemma SlashIsNotTrimmed(v: string)
    requires v != "" && TrimSpace(v) == v
    ensures TrimSpace(v + "/") == v + "/"
  {
    var s := v + "/";
    NothingTrimmed(v);
    NothingTrimmed(s);
    assert s[0] == v[0] && s[|s| - 1] == '/';
  }

  lemma SlashServes(site: Site, root: Root, v: string)
    requires ProperRoot(root) && Ordinary(v) && CanRollback(root, v)
    ensures var s, rolled := v + "/", Run(root, PointPlan(v + "/"));
            Accepts(site, root, s) && TrimSpace(s) == s && DirOf(site.base, s) == v && Served(site.base, rolled) == Some((v, root[v]))
  {
    OtherSpellings(site.base, v);
    EntryAccepted(site, root, v + "/");
    SlashIsNotTrimmed(v);
    PointedNameIsCurrent(root, v + "/");
    PointKeepsDirectories(root, v + "/");
  }

  lemma SlashPruned(site: Site, root: Root, v: string, keep: nat)
    requires Safe(root) && ProperRoot(root) && Ordinary(v) && CanRollback(root, v) && |NewerThan(root, v)| >= keep
    ensures var rolled := Run(root, PointPlan(v + "/"));
            var after := Run(rolled, Removals(PruneTargets(rolled, keep)));
            v !in after && CurrentOf(after) == Some(v + "/")
  {
    SlashServes(site, root, v);
    assert v + "/" != v;
    PruneAfterRollback(site.base, root, v + "/", keep);
  }

  lemma NothingServed(base: seq<string>, root: Root, v: string, d: string, t: string, n: string)
    requires CurrentOf(root) == Some(v) && DirOf(base, v) == d && d !in root
    ensures LookupThrough(base, root, t, n) == Err(SnapError.NoManifest)
  {
  }

  /** The name of an old version with a slash after it: Rollback takes it, readers are served the
      version, and the next prune deletes what they are being served. */
  lemma SlashThenPrune(site: Site, root: Root, v: string, keep: nat, t: string, n: string)
    requires Safe(root) && ProperRoot(root) && Ordinary(v) && CanRollback(root, v) && |NewerThan(root, v)| >= keep
    ensures var rolled := Run(root, PointPlan(v + "/"));
            var after := Run(rolled, Removals(PruneTargets(rolled, keep)));
            && Accepts(site, root, v + "/") && Served(site.base, rolled) == Some((v, root[v]))
            && v !in after && LookupThrough(site.base, after, t, n) == Err(SnapError.NoManifest)
  {
    SlashServes(site, root, v);
    SlashPruned(site, root, v, keep);
    var after := Run(Run(root, PointPlan(v + "/")), Removals(PruneTargets(Run(root, PointPlan(v + "/")), keep)));
    NothingServed(site.base, after, v + "/", v, t, n);
  }
}
