/** Removals that may stop half way: RemoveAll spelled out file by file, and what readers see
    then. */
module PartialRemovals {
  import opened Names
  import opened Rules
  import opened Rendering
  import opened Disks
  import opened SnapshotSets
  import opened SnapshotStores
  import opened Dedup
  import opened SnapshotSafety
  import opened SnapshotRuns

  // ----- RemoveAll that may stop half way -----

  function Unlinks(name: string, order: seq<string>): seq<Call> {
    seq(|order|, i requires 0 <= i < |order| => Unlink(name, order[i]))
  }

  /** The plan with every RemoveAll spelled out as the removal of some files, in any order,
      and then of the tree. */
  function Shredded(calls: seq<Call>, order: string -> seq<string>): seq<Call> {
    if calls == [] then []
    else
      var c := calls[|calls| - 1];
      Shredded(calls[..|calls| - 1], order) + (if c.RemoveAll? then Unlinks(c.name, order(c.name)) else []) + [c]
  }

  /** Nothing published, or the current file names a complete set. */
  ghost predicate ReaderSafe(root: Root) {
    CurrentGood(root) && (CurrentOf(root).Some? ==> Complete(root[CurrentOf(root).value].files))
  }

  /** The call stays away from the current file and from the published version. */
  predicate Apart(c: Call, current: Option<string>) {
    CURRENT !in Touches(c) && (current.Some? ==> current.value !in Touches(c))
  }

  lemma ApartKeepsReaders(root: Root, c: Call)
    requires ReaderSafe(root) && Apart(c, CurrentOf(root))
    ensures ReaderSafe(Do(root, c)) && CurrentOf(Do(root, c)) == CurrentOf(root) && Published(Do(root, c)) == Published(root)
  {
    DoTouches(root, c);
    assert CURRENT in root <==> CURRENT in Do(root, c);
  }

  lemma {:induction false} ApartAlong(root: Root, calls: seq<Call>, n: nat)
    requires ReaderSafe(root) && n <= |calls| && forall c :: c in calls ==> Apart(c, CurrentOf(root))
    ensures var r := Run(root, calls[..n]); ReaderSafe(r) && CurrentOf(r) == CurrentOf(root) && Published(r) == Published(root)
  {
    if n > 0 {
      ApartAlong(root, calls, n - 1);
      assert calls[..n][..n - 1] == calls[..n - 1];
      assert calls[n - 1] in calls;
      ApartKeepsReaders(Run(root, calls[..n - 1]), calls[n - 1]);
    }
  }

  lemma {:induction false} ShreddedCalls(calls: seq<Call>, order: string -> seq<string>, current: Option<string>)
    requires forall c :: c in calls ==> Apart(c, current)
    ensures forall c :: c in Shredded(calls, order) ==> Apart(c, current)
  {
    if calls != [] {
      var front, last := calls[..|calls| - 1], calls[|calls| - 1];
      assert calls == front + [last] && last in calls;
      ShreddedCalls(front, order, current);
    }
  }

  lemma {:induction false} UnlinksOnlyTouch(root: Root, name: string, order: seq<string>)
    ensures Run(root, Unlinks(name, order)) - {name} == root - {name}
  {
    if order != [] {
      var n := |order| - 1;
      UnlinksOnlyTouch(root, name, order[..n]);
      assert Unlinks(name, order)[..n] == Unlinks(name, order[..n]);
      var mid := Run(root, Unlinks(name, order[..n]));
      assert Do(mid, Unlink(name, order[n])) - {name} == mid - {name};
    }
  }

  /** Once the tree itself is gone it does not matter how it went. */
  lemma {:induction false} ShreddedSame(root: Root, calls: seq<Call>, order: string -> seq<string>)
    ensures Run(root, Shredded(calls, order)) == Run(root, calls)
  {
    if calls != [] {
      var front, c := calls[..|calls| - 1], calls[|calls| - 1];
      ShreddedSame(root, front, order);
      var mid := Run(root, front);
      AlongOneRun(mid, c);
      if c.RemoveAll? {
        var un := Unlinks(c.name, order(c.name));
        RunConcat(root, Shredded(front, order) + un, [c]);
        RunConcat(root, Shredded(front, order), un);
        UnlinksOnlyTouch(mid, c.name, order(c.name));
        AlongOneRun(Run(mid, un), c);
      } else {
        assert Shredded(front, order) + [] == Shredded(front, order);
        RunConcat(root, Shredded(front, order), [c]);
      }
    }
  }

  lemma MovesStayApart(v: string, current: Option<string>)
    requires Ordinary(v) && current != Some(v) && (current.Some? ==> Ordinary(current.value))
    ensures forall c :: c in InstallPlan(v) + PointPlan(v)[..2] ==> Apart(c, current)
    ensures InstallPlan(v) + PointPlan(v) == InstallPlan(v) + PointPlan(v)[..2] + [Rename(Top(CURRENT + ".tmp"), Top(CURRENT))]
  {
    BuildDirIsNotOrdinary(v);
    var tmp := Top(CURRENT + ".tmp");
    var tail := [RemoveAll(v), RenameDir(BuildDir(v), v), Create(tmp), Fill(tmp, CurrentDoc(v))];
    assert InstallPlan(v) + PointPlan(v)[..2] == tail;
    assert Apart(tail[0], current) && Apart(tail[1], current) && Apart(tail[2], current) && Apart(tail[3], current);
  }

  lemma PreparingStaysApart(site: Site, d: Draft, files: seq<ListFile>, current: Option<string>)
    requires current.Some? ==> Ordinary(current.value)
    ensures forall c :: c in BuildPlan(site, d, files) + ManifestPlan(DraftAfter(d, files)) ==> Apart(c, current)
  {
    BuildStaysInside(site, d, files);
    BuildDirIsNotOrdinary(d.version);
    forall c | c in BuildPlan(site, d, files) + ManifestPlan(DraftAfter(d, files)) ensures Apart(c, current) {
      assert Inside(c, BuildDir(d.version));
    }
  }

  lemma LastOfThree<T>(a: seq<T>, b: seq<T>, x: T)
    ensures var s := a + (b + [x]); s != [] && s[|s| - 1] == x && s[..|s| - 1] == a + b
  {
  }

  /** The calls of a publish before the last one stay away from what is published. */
  lemma PublishStaysApart(site: Site, d: Draft, files: seq<ListFile>, current: Option<string>)
    requires Ordinary(d.version) && current != Some(d.version) && (current.Some? ==> Ordinary(current.value))
    requires DraftAfter(d, files).lists != map[]
    ensures var plan := PublishPlan(site, d, files);
            plan != [] && plan[|plan| - 1] == Rename(Top(CURRENT + ".tmp"), Top(CURRENT))
            && forall c :: c in plan[..|plan| - 1] ==> Apart(c, current)
  {
    var prep, moves := BuildPlan(site, d, files) + ManifestPlan(DraftAfter(d, files)), InstallPlan(d.version) + PointPlan(d.version)[..2];
    PlanInTwo(site, d, files);
    PreparingStaysApart(site, d, files, current);
    MovesStayApart(d.version, current);
    LastOfThree(prep, moves, Rename(Top(CURRENT + ".tmp"), Top(CURRENT)));
  }

  /** Along calls that stay away from what is published nothing changes for readers, and the
      spelled-out removals can be cut anywhere. */
  lemma ShreddedApart(root: Root, calls: seq<Call>, order: string -> seq<string>, n: nat)
    requires ReaderSafe(root) && n <= |Shredded(calls, order)| && forall c :: c in calls ==> Apart(c, CurrentOf(root))
    ensures var r := Run(root, Shredded(calls, order)[..n]); ReaderSafe(r) && Published(r) == Published(root)
  {
    ShreddedCalls(calls, order, CurrentOf(root));
    ApartAlong(root, Shredded(calls, order), n);
  }

  /** A plan whose last call alone touches what is published. */
  lemma ShreddedSwitch(root: Root, plan: seq<Call>, order: string -> seq<string>, n: nat)
    requires ReaderSafe(root) && plan != [] && !plan[|plan| - 1].RemoveAll?
    requires forall c :: c in plan[..|plan| - 1] ==> Apart(c, CurrentOf(root))
    requires n <= |Shredded(plan, order)|
    ensures var r := Run(root, Shredded(plan, order)[..n]);
            if n < |Shredded(plan, order)| then ReaderSafe(r) && Published(r) == Published(root) else r == Run(root, plan)
  {
    var front := plan[..|plan| - 1];
    var fine := Shredded(front, order);
    assert fine + [] == fine;
    assert Shredded(plan, order) == fine + [plan[|plan| - 1]];
    if n <= |fine| {
      assert Shredded(plan, order)[..n] == fine[..n];
      ShreddedApart(root, front, order, n);
    } else {
      assert Shredded(plan, order)[..n] == Shredded(plan, order);
      ShreddedSame(root, plan, order);
    }
  }

  // ----- the last point of a publish -----

  lemma PointEffect(root: Root, v: string)
    ensures Run(root, PointPlan(v)) == (root - {CURRENT + ".tmp"})[CURRENT := Plain(CurrentDoc(v))]
  {
    var tmp := CURRENT + ".tmp";
    var a, b, c := Create(Top(tmp)), Fill(Top(tmp), CurrentDoc(v)), Rename(Top(tmp), Top(CURRENT));
    ThreeCalls(root, a, b, c);
    var filled := root[tmp := Plain(Torn)][tmp := Plain(CurrentDoc(v))];
    assert Run(root, [a, b]) == filled;
    assert ContentAt(filled, Top(tmp)) == Some(CurrentDoc(v));
    assert filled - {tmp} == root - {tmp};
  }

  lemma InstallEffect(root: Root, v: string, files: map<string, Content>)
    requires BuildDir(v) in root && root[BuildDir(v)] == Dir(files) && BuildDir(v) != v
    ensures Run(root, InstallPlan(v)) == (root - {v, BuildDir(v)})[v := Dir(files)]
  {
    TwoCalls(root, RemoveAll(v), RenameDir(BuildDir(v), v));
    assert (root - {v}) - {BuildDir(v)} == root - {v, BuildDir(v)};
  }

  /** The build, its manifest included, whatever was there before. */
  lemma PreparedEffect(site: Site, d: Draft, files: seq<ListFile>, root: Root)
    ensures Run(root, BuildPlan(site, d, files) + ManifestPlan(DraftAfter(d, files))) == root[BuildDir(d.version) := Dir(FinalFiles(site, d, files))]
  {
    var d2, built := DraftAfter(d, files), root[BuildDir(d.version) := Dir(FilesBuilt(site, d, files))];
    DraftKeepsVersion(d, files);
    BuildEffect(site, d, files, root);
    RunConcat(root, BuildPlan(site, d, files), ManifestPlan(d2));
    ManifestEffect(d2, built, FilesBuilt(site, d, files));
    Overwrite(root, BuildDir(d.version), Dir(FilesBuilt(site, d, files)), Dir(FinalFiles(site, d, files)));
  }

  lemma FinishEffect(ready: Root, v: string, files: map<string, Content>)
    requires Ordinary(v) && InBuild(ready, v, files)
    ensures Run(ready, InstallPlan(v) + PointPlan(v)) ==
            ((ready - {v, BuildDir(v)})[v := Dir(files)] - {CURRENT + ".tmp"})[CURRENT := Plain(CurrentDoc(v))]
  {
    BuildDirIsNotOrdinary(v);
    RunConcat(ready, InstallPlan(v), PointPlan(v));
    InstallEffect(ready, v, files);
    PointEffect(Run(ready, InstallPlan(v)), v);
  }

  ghost predicate Ends(root: Root, v: string, files: map<string, Content>) {
    CURRENT in root && root[CURRENT] == Plain(CurrentDoc(v)) && v in root && root[v] == Dir(files)
  }

  /** Where a whole publish ends, whatever it started from. */
  lemma PublishEnds(site: Site, d: Draft, files: seq<ListFile>, root: Root)
    requires Ordinary(d.version) && DraftAfter(d, files).lists != map[]
    ensures Ends(Run(root, PublishPlan(site, d, files)), d.version, FinalFiles(site, d, files))
  {
    var prep, finish := BuildPlan(site, d, files) + ManifestPlan(DraftAfter(d, files)), InstallPlan(d.version) + PointPlan(d.version);
    PlanInTwo(site, d, files);
    PreparedEffect(site, d, files, root);
    RunConcat(root, prep, finish);
    FinishEffect(Run(root, prep), d.version, FinalFiles(site, d, files));
  }

  lemma EndsWell(root: Root, v: string, files: map<string, Content>)
    requires Ends(root, v, files) && Ordinary(v) && Complete(files)
    ensures ReaderSafe(root) && Published(root) == Some((v, Dir(files)))
  {
  }

  /** Even when every removal may stop half way, after any number of files in any order, a
      publish never breaks what readers see: at every point, the last one included, the
      current file leads to a complete set, the old one until the last call and the new one
      after it. */
  lemma PartialRemovalsSpareReaders(site: Site, d: Draft, files: seq<ListFile>, root: Root, order: string -> seq<string>, n: nat)
    requires ReaderSafe(root) && Ordinary(d.version) && CurrentOf(root) != Some(d.version)
    requires Empty(d) && Addable(files) && DraftAfter(d, files).lists != map[]
    requires n <= |Shredded(PublishPlan(site, d, files), order)|
    ensures var plan := Shredded(PublishPlan(site, d, files), order);
            var r := Run(root, plan[..n]);
            && ReaderSafe(r)
            && Published(r) == if n < |plan| then Published(root) else Some((d.version, Dir(FinalFiles(site, d, files))))
  {
    var plan := PublishPlan(site, d, files);
    PublishStaysApart(site, d, files, CurrentOf(root));
    ShreddedSwitch(root, plan, order, n);
    PublishEnds(site, d, files, root);
    FinalFilesComplete(site, d, files);
    EndsWell(Run(root, plan), d.version, FinalFiles(site, d, files));
  }

  lemma PruneStaysApart(root: Root, keep: nat)
    requires CurrentGood(root)
    ensures forall c :: c in Removals(PruneTargets(root, keep)) ==> Apart(c, CurrentOf(root))
  {
    var targets := PruneTargets(root, keep);
    PruneTargetsAreOld(root, keep);
    forall c | c in Removals(targets) ensures Apart(c, CurrentOf(root)) {
      var i :| 0 <= i < |targets| && c == RemoveAll(targets[i]);
      assert targets[i] in targets && IsVersionDir(root, targets[i]);
    }
  }

  // ----- histories with partial removals -----

  /** What callers must keep to now: as before, and a rollback goes to a complete version. */
  ghost predicate AdmissibleNow(root: Root, a: Action) {
    Admissible(root, a) && (a.Rollback? && CanRollback(root, a.version) ==> Complete(root[a.version].files))
  }

  /** Each operation spares readers at every point of its spelled-out plan. */
  lemma ShreddedAction(site: Site, root: Root, a: Action, order: string -> seq<string>, n: nat)
    requires ReaderSafe(root) && AdmissibleNow(root, a) && n <= |Shredded(PlanOf(site, root, a), order)|
    ensures ReaderSafe(Run(root, Shredded(PlanOf(site, root, a), order)[..n]))
  {
    match a
    case Publish(v, now, attribution, files) =>
      var d := FirstDraft(v, now, attribution);
      if DraftAfter(d, files).lists != map[] {
        PartialRemovalsSpareReaders(site, d, files, root, order, n);
      } else {
        UncommittedStaysApart(site, d, files, CurrentOf(root));
        ShreddedApart(root, PlanOf(site, root, a), order, n);
      }
    case Rollback(v) =>
      PlainAccepted(site, root, v);
      if CanRollback(root, v) {
        ShreddedRollback(root, v, order, n);
      } else {
        ShreddedApart(root, [], order, n);
      }
    case Prune(keep) =>
      PruneStaysApart(root, keep);
      ShreddedApart(root, PlanOf(site, root, a), order, n);
    case Discard(v) =>
      BuildDirIsNotOrdinary(v);
      ShreddedApart(root, PlanOf(site, root, a), order, n);
  }

  lemma UncommittedStaysApart(site: Site, d: Draft, files: seq<ListFile>, current: Option<string>)
    requires DraftAfter(d, files).lists == map[] && (current.Some? ==> Ordinary(current.value))
    ensures forall c :: c in PublishPlan(site, d, files) ==> Apart(c, current)
  {
    PreparingStaysApart(site, d, files, current);
  }

  lemma ShreddedRollback(root: Root, v: string, order: string -> seq<string>, n: nat)
    requires ReaderSafe(root) && Ordinary(v) && CanRollback(root, v) && Complete(root[v].files) && n <= |Shredded(PointPlan(v), order)|
    ensures ReaderSafe(Run(root, Shredded(PointPlan(v), order)[..n]))
  {
    var plan, tmp := PointPlan(v), Top(CURRENT + ".tmp");
    assert plan[..|plan| - 1] == [Create(tmp), Fill(tmp, CurrentDoc(v))];
    ShreddedSwitch(root, plan, order, n);
    PointEffect(root, v);
    assert Run(root, plan)[v] == root[v];
  }

  /** One operation, the way its removals go about it, and the number of calls that went
      through. */
  datatype FineEvent = FineEvent(action: Action, order: string -> seq<string>, cut: nat)

  ghost function AfterFine(site: Site, root: Root, history: seq<FineEvent>): Root {
    if history == [] then root
    else
      var e := history[|history| - 1];
      var before := AfterFine(site, root, history[..|history| - 1]);
      Run(before, Cut(Shredded(PlanOf(site, before, e.action), e.order), e.cut))
  }

  ghost predicate AllAdmissibleNow(site: Site, root: Root, history: seq<FineEvent>) {
    history == [] ||
    (AllAdmissibleNow(site, root, history[..|history| - 1])
     && AdmissibleNow(AfterFine(site, root, history[..|history| - 1]), history[|history| - 1].action))
  }

  /** Crash safety without atomic removal. After any history, each operation cut off after any
      number of calls and each removal after any number of files, the current file is absent
      or leads to a complete set. */
  lemma {:induction false} CrashSafetyWithPartialRemovals(site: Site, root: Root, history: seq<FineEvent>)
    requires ReaderSafe(root) && AllAdmissibleNow(site, root, history)
    ensures ReaderSafe(AfterFine(site, root, history))
  {
    if history != [] {
      var front, e := history[..|history| - 1], history[|history| - 1];
      CrashSafetyWithPartialRemovals(site, root, front);
      var before := AfterFine(site, root, front);
      var plan := Shredded(PlanOf(site, before, e.action), e.order);
      assert plan[..|plan|] == plan;
      ShreddedAction(site, before, e.action, e.order, if e.cut <= |plan| then e.cut else |plan|);
    }
  }
}
