/** Histories of the snapshot store: publishing, rolling back, pruning and cleaning up, each
    cut off after any number of its system calls by a crash or a failing disk. */
module SnapshotRuns {
  import opened Names
  import opened Rules
  import opened Rendering
  import opened Sorting
  import opened Disks
  import opened SnapshotSets
  import opened SnapshotStores
  import opened Dedup
  import opened SnapshotSafety

  function FirstDraft(version: string, now: string, attribution: seq<Attribution>): Draft {
    Draft(version, now, map[], map[], attribution, map[])
  }

  /** Begin and every Add: all the calls before Commit. */
  function BuildPlan(site: Site, d: Draft, files: seq<ListFile>): seq<Call> {
    BeginPlan(d.version) + AddsPlan(site, d, files)
  }

  /** Begin, every Add, Commit. A set without a default list is not committed. */
  function PublishPlan(site: Site, d: Draft, files: seq<ListFile>): seq<Call> {
    BuildPlan(site, d, files) + if DraftAfter(d, files).lists == map[] then [] else CommitPlan(DraftAfter(d, files))
  }

  datatype Action =
    | Publish(version: string, now: string, attribution: seq<Attribution>, files: seq<ListFile>)
    | Rollback(version: string)
    | Prune(keep: nat)
    | Discard(version: string)

  ghost function PlanOf(site: Site, root: Root, a: Action): seq<Call> {
    match a
    case Publish(v, now, attribution, files) => PublishPlan(site, FirstDraft(v, now, attribution), files)
    case Rollback(v) => if Accepts(site, root, v) then PointPlan(v) else []
    case Prune(keep) => Removals(PruneTargets(root, keep))
    case Discard(v) => [RemoveAll(BuildDir(v))]
  }

  function Cut(calls: seq<Call>, n: nat): seq<Call> {
    if n <= |calls| then calls[..n] else calls
  }

  /** What callers keep to: ordinary version names, a new version that is not the published
      one, and files that stay clear of each other. */
  ghost predicate Admissible(root: Root, a: Action) {
    match a
    case Publish(v, _, _, files) => Ordinary(v) && CurrentOf(root) != Some(v) && Addable(files)
    case Rollback(v) => Ordinary(v)
    case Prune(_) => true
    case Discard(_) => true
  }

  // ----- building -----

  lemma BuildDirIsNotOrdinary(v: string)
    ensures !Ordinary(BuildDir(v)) && BuildDir(v) != CURRENT && BuildDir(v) != CURRENT + ".tmp" && BuildDir(v) != v
  {
    assert HasPrefix(BuildDir(v), ".building-");
    assert |BuildDir(v)| > |v|;
    assert BuildDir(v)[0] == '.' && CURRENT[0] == 'c' && (CURRENT + ".tmp")[0] == 'c';
  }

  predicate Inside(c: Call, dir: string) {
    Touches(c) <= {dir}
  }

  lemma {:induction false} AddsStayInside(site: Site, d: Draft, files: seq<ListFile>)
    ensures forall c :: c in AddsPlan(site, d, files) ==> Inside(c, BuildDir(d.version))
  {
    if files != [] {
      AddsStayInside(site, d, files[..|files| - 1]);
      DraftKeepsVersion(d, files[..|files| - 1]);
    }
  }

  lemma BuildStaysInside(site: Site, d: Draft, files: seq<ListFile>)
    ensures forall c :: c in BuildPlan(site, d, files) ==> Inside(c, BuildDir(d.version))
    ensures forall c :: c in ManifestPlan(DraftAfter(d, files)) ==> Inside(c, BuildDir(d.version))
  {
    AddsStayInside(site, d, files);
    DraftKeepsVersion(d, files);
  }

  lemma BeginEffect(root: Root, v: string)
    ensures InBuild(Run(root, BeginPlan(v)), v, map[])
    ensures Run(root, BeginPlan(v)) == root[BuildDir(v) := Dir(map[])]
  {
    var a, b := RemoveAll(BuildDir(v)), MakeDir(BuildDir(v));
    assert [a, b][..1] == [a] && [a][..0] == [];
    assert Run(root, [a]) == Do(root, a);
    assert Run(root, [a, b]) == Do(Do(root, a), b);
  }

  lemma BuildEffect(site: Site, d: Draft, files: seq<ListFile>, root: Root)
    ensures Run(root, BuildPlan(site, d, files)) == root[BuildDir(d.version) := Dir(FilesBuilt(site, d, files))]
  {
    var begun := root[BuildDir(d.version) := Dir(map[])];
    BeginEffect(root, d.version);
    RunConcat(root, BeginPlan(d.version), AddsPlan(site, d, files));
    AddsEffect(site, d, files, begun);
  }

  lemma ManifestEffect(d: Draft, root: Root, files: map<string, Content>)
    requires InBuild(root, d.version, files)
    ensures Run(root, ManifestPlan(d)) == root[BuildDir(d.version) := Dir(WithManifest(d, files))]
  {
    var dir := BuildDir(d.version);
    var tmp, doc := In(dir, MANIFEST + ".tmp"), ManifestDoc(ManifestOf(d));
    var a, b, c := Create(tmp), Fill(tmp, doc), Rename(tmp, In(dir, MANIFEST));
    ThreeCalls(root, a, b, c);
    WriteOneEffect(root, dir, files, MANIFEST + ".tmp", doc);
    var full := files[MANIFEST + ".tmp" := doc];
    assert full - {MANIFEST + ".tmp"} == files - {MANIFEST + ".tmp"};
    RenameEffect(root[dir := Dir(full)], dir, full, MANIFEST + ".tmp", MANIFEST);
    Overwrite(root, dir, Dir(full), Dir(WithManifest(d, files)));
  }

  lemma RenameEffect(root: Root, dir: string, files: map<string, Content>, from: string, to: string)
    requires dir in root && root[dir] == Dir(files) && from in files
    ensures Do(root, Rename(In(dir, from), In(dir, to))) == root[dir := Dir((files - {from})[to := files[from]])]
  {
  }

  /** The directory that Commit moves into place. */
  function FinalFiles(site: Site, d: Draft, files: seq<ListFile>): map<string, Content> {
    WithManifest(DraftAfter(d, files), FilesBuilt(site, d, files))
  }

  lemma FinalFilesComplete(site: Site, d: Draft, files: seq<ListFile>)
    requires Empty(d) && Addable(files)
    ensures Complete(FinalFiles(site, d, files))
  {
    BuiltInvariant(site, d, files);
    NoEmptyTenant(d, files);
    BuiltSetIsComplete(DraftAfter(d, files), files, FilesBuilt(site, d, files));
  }

  /** How far apart names must be, exactly: with acceptable, distinct keys the directory that
      Commit installs is complete if and only if no file that is really written (the first of
      its content) takes the path of another one's compressed copy or of the manifest. */
  lemma FinalFilesCompleteIff(site: Site, d: Draft, files: seq<ListFile>)
    requires Empty(d) && DistinctSafe(files)
    ensures Complete(FinalFiles(site, d, files)) <==> Apart(Firsts(files))
  {
    if Apart(Firsts(files)) { FinalFilesComplete(site, d, files); }
    if Complete(FinalFiles(site, d, files)) { CompleteMeansApart(d, files, FinalFiles(site, d, files)); }
  }

  /** Everything before the directory moves: safe and unseen, and it leaves a complete build. */
  lemma PreparedAlong(site: Site, d: Draft, files: seq<ListFile>, root: Root)
    requires Safe(root) && Empty(d) && Addable(files)
    ensures var prep := BuildPlan(site, d, files) + ManifestPlan(DraftAfter(d, files));
            && SafeAlong(root, prep) && UnseenAlong(root, prep) && SafeAlong(root, BuildPlan(site, d, files)) && UnseenAlong(root, BuildPlan(site, d, files))
            && Run(root, prep) == root[BuildDir(d.version) := Dir(FinalFiles(site, d, files))]
            && Safe(Run(root, prep)) && CurrentOf(Run(root, prep)) == CurrentOf(root) && Published(Run(root, prep)) == Published(root)
  {
    var d2 := DraftAfter(d, files);
    var build, doc := BuildPlan(site, d, files), ManifestPlan(d2);
    BuildStaysInside(site, d, files);
    BuildDirIsNotOrdinary(d.version);
    forall c | c in build + doc ensures Quiet(c) { assert Inside(c, BuildDir(d.version)); }
    QuietAlong(root, build);
    QuietAlong(root, build + doc);
    BuildEffect(site, d, files, root);
    RunConcat(root, build, doc);
    DraftKeepsVersion(d, files);
    ManifestEffect(d2, root[BuildDir(d.version) := Dir(FilesBuilt(site, d, files))], FilesBuilt(site, d, files));
    Overwrite(root, BuildDir(d.version), Dir(FilesBuilt(site, d, files)), Dir(FinalFiles(site, d, files)));
  }

  lemma TwoCalls(root: Root, a: Call, b: Call)
    ensures Run(root, [a, b]) == Do(Do(root, a), b) && [a, b] == [a] + [b]
  {
    assert [a, b][..1] == [a] && [a][..0] == [];
    assert Run(root, [a]) == Do(root, a);
  }

  /** The two directory moves. */
  lemma InstallAlong(root: Root, v: string, files: map<string, Content>)
    requires Safe(root) && Ordinary(v) && CurrentOf(root) != Some(v) && InBuild(root, v, files) && Complete(files)
    ensures SafeAlong(root, InstallPlan(v)) && UnseenAlong(root, InstallPlan(v))
    ensures var after := Run(root, InstallPlan(v));
            Safe(after) && v in after && after[v] == Dir(files) && Published(after) == Published(root)
  {
    var a, b := RemoveAll(v), RenameDir(BuildDir(v), v);
    BuildDirIsNotOrdinary(v);
    RemoveOther(root, v);
    var mid := Do(root, a);
    InstallBuild(mid, v, files);
    AlongOne(root, a);
    AlongOne(mid, b);
    AlongConcat(root, [a], [b]);
    TwoCalls(root, a, b);
  }

  // ----- publishing -----

  /** A reader sees the old state after every call but the last, and the new one after it. */
  ghost predicate SwitchesAtEnd(root: Root, calls: seq<Call>, after: Option<(string, Node)>) {
    calls != [] && UnseenAlong(root, calls[..|calls| - 1]) && Published(Run(root, calls)) == after
  }

  lemma FrontOfConcat<T>(a: seq<T>, b: seq<T>)
    requires b != []
    ensures (a + b)[..|a + b| - 1] == a + b[..|b| - 1]
  {
  }

  lemma SwitchAfter(root: Root, a: seq<Call>, b: seq<Call>, after: Option<(string, Node)>)
    requires SafeAlong(root, a) && UnseenAlong(root, a) && SafeAlong(Run(root, a), b) && SwitchesAtEnd(Run(root, a), b, after)
    ensures SafeAlong(root, a + b) && SwitchesAtEnd(root, a + b, after)
  {
    AlongConcat(root, a, b);
    FrontUnseen(root, a, b, b[..|b| - 1]);
    FrontOfConcat(a, b);
    RunConcat(root, a, b);
  }

  lemma FrontUnseen(root: Root, a: seq<Call>, b: seq<Call>, front: seq<Call>)
    requires SafeAlong(root, a) && UnseenAlong(root, a) && SafeAlong(Run(root, a), b)
    requires b != [] && front == b[..|b| - 1] && UnseenAlong(Run(root, a), front)
    ensures UnseenAlong(root, a + front)
  {
    SafeFront(Run(root, a), b);
    AlongConcat(root, a, front);
  }

  lemma SafeFront(root: Root, b: seq<Call>)
    requires SafeAlong(root, b) && b != []
    ensures SafeAlong(root, b[..|b| - 1])
  {
    var front := b[..|b| - 1];
    forall n | 0 <= n <= |front| ensures Safe(Run(root, front[..n])) { assert front[..n] == b[..n]; }
  }

  /** From a complete build on: the directory moves and the current file. */
  lemma FinishAlong(root: Root, v: string, files: map<string, Content>)
    requires Safe(root) && Ordinary(v) && CurrentOf(root) != Some(v) && InBuild(root, v, files) && Complete(files)
    ensures SafeAlong(root, InstallPlan(v) + PointPlan(v))
    ensures SwitchesAtEnd(root, InstallPlan(v) + PointPlan(v), Some((v, Dir(files))))
  {
    InstallAlong(root, v, files);
    var installed := Run(root, InstallPlan(v));
    PointAlong(installed, v);
    assert PointPlan(v)[..|PointPlan(v)| - 1] == PointPlan(v)[..2];
    SwitchAfter(root, InstallPlan(v), PointPlan(v), Some((v, Dir(files))));
  }

  lemma PlanInTwo(site: Site, d: Draft, files: seq<ListFile>)
    requires DraftAfter(d, files).lists != map[]
    ensures PublishPlan(site, d, files) ==
            BuildPlan(site, d, files) + ManifestPlan(DraftAfter(d, files)) + (InstallPlan(d.version) + PointPlan(d.version))
  {
    var d2 := DraftAfter(d, files);
    DraftKeepsVersion(d, files);
    Regroup(BuildPlan(site, d, files), ManifestPlan(d2), InstallPlan(d.version), PointPlan(d.version));
  }

  lemma Regroup<T>(a: seq<T>, b: seq<T>, c: seq<T>, d: seq<T>)
    ensures a + (b + c + d) == a + b + (c + d)
  {
  }

  /** Publishing, call by call: the directory is safe at every point, and the whole new set
      appears with the last call, whatever was published before. */
  lemma PublishAlong(site: Site, d: Draft, files: seq<ListFile>, root: Root)
    requires Safe(root) && Empty(d) && Addable(files) && Ordinary(d.version) && CurrentOf(root) != Some(d.version)
    ensures SafeAlong(root, PublishPlan(site, d, files))
    ensures if DraftAfter(d, files).lists == map[] then UnseenAlong(root, PublishPlan(site, d, files))
            else SwitchesAtEnd(root, PublishPlan(site, d, files), Some((d.version, Dir(FinalFiles(site, d, files)))))
  {
    PreparedAlong(site, d, files, root);
    if DraftAfter(d, files).lists == map[] {
      assert BuildPlan(site, d, files) + [] == BuildPlan(site, d, files);
    } else {
      var prep, finish := BuildPlan(site, d, files) + ManifestPlan(DraftAfter(d, files)), InstallPlan(d.version) + PointPlan(d.version);
      var final := FinalFiles(site, d, files);
      FinalFilesComplete(site, d, files);
      FinishAlong(Run(root, prep), d.version, final);
      SwitchAfter(root, prep, finish, Some((d.version, Dir(final))));
      PlanInTwo(site, d, files);
    }
  }

  /** Prefix p of a plan leads to a state that is not safe. */
  lemma UnsafeAt(root: Root, plan: seq<Call>, p: seq<Call>)
    requires p <= plan && !Safe(Run(root, p))
    ensures !SafeAlong(root, plan)
  {
    assert plan[..|p|] == p;
  }

  /** The condition on the version is exact: with a set to commit, publishing is safe at every
      point if and only if the version is not the published one. */
  lemma PublishSafeIff(site: Site, d: Draft, files: seq<ListFile>, root: Root)
    requires Safe(root) && Empty(d) && Addable(files) && Ordinary(d.version) && DraftAfter(d, files).lists != map[]
    ensures SafeAlong(root, PublishPlan(site, d, files)) <==> CurrentOf(root) != Some(d.version)
  {
    if CurrentOf(root) != Some(d.version) {
      PublishAlong(site, d, files, root);
    } else {
      var prep := BuildPlan(site, d, files) + ManifestPlan(DraftAfter(d, files));
      PreparedAlong(site, d, files, root);
      DanglingCurrent(Run(root, prep), d.version);
      RunConcat(root, prep, [RemoveAll(d.version)]);
      AlongOneRun(Run(root, prep), RemoveAll(d.version));
      PlanInTwo(site, d, files);
      UnsafeAt(root, PublishPlan(site, d, files), prep + [RemoveAll(d.version)]);
    }
  }

  lemma AlongOneRun(root: Root, c: Call)
    ensures Run(root, [c]) == Do(root, c)
  {
    assert [c][..0] == [];
  }

  lemma DanglingCurrent(root: Root, v: string)
    requires Safe(root) && CurrentOf(root) == Some(v)
    ensures !Safe(Do(root, RemoveAll(v)))
  {
    assert v != CURRENT;
  }

  // ----- pruning and the rest -----

  lemma {:induction false} RemovalsAlong(root: Root, targets: seq<string>)
    requires Safe(root) && forall v :: v in targets ==> v != CURRENT && CurrentOf(root) != Some(v)
    ensures SafeAlong(root, Removals(targets)) && UnseenAlong(root, Removals(targets))
    ensures var after := Run(root, Removals(targets));
            Safe(after) && CurrentOf(after) == CurrentOf(root) && Published(after) == Published(root)
  {
    if targets == [] {
      AlongNone(root);
    } else {
      var front, v := targets[..|targets| - 1], targets[|targets| - 1];
      assert targets == front + [v] && v in targets;
      assert forall x :: x in front ==> x in targets;
      RemovalsAlong(root, front);
      var mid := Run(root, Removals(front));
      RemoveOther(mid, v);
      AlongOne(mid, RemoveAll(v));
      assert Removals(targets) == Removals(front) + [RemoveAll(v)];
      AlongConcat(root, Removals(front), [RemoveAll(v)]);
      RunConcat(root, Removals(front), [RemoveAll(v)]);
    }
  }

  lemma {:induction false} DoomedAreOld(versions: seq<string>, i: nat, keep: nat, current: Option<string>)
    requires i <= |versions|
    ensures forall v :: v in Doomed(versions, i, keep, current) ==> v in versions && current != Some(v)
  {
    if i > 0 { DoomedAreOld(versions, i - 1, keep, current); }
  }

  lemma PruneTargetsAreOld(root: Root, keep: nat)
    ensures forall v :: v in PruneTargets(root, keep) ==> IsVersionDir(root, v) && CurrentOf(root) != Some(v)
  {
    DoomedAreOld(VersionsOf(root), |VersionsOf(root)|, keep, CurrentOf(root));
    NewerIsTotal();
    ListingIsSorted(Newer, VersionNames(root));
  }

  /** What a reader can see of an action while it runs. */
  ghost predicate AtomicFor(root: Root, calls: seq<Call>) {
    UnseenAlong(root, calls) || (calls != [] && UnseenAlong(root, calls[..|calls| - 1]))
  }

  /** Every operation keeps the directory safe at every point, and changes what a reader sees
      with its last call or not at all. */
  lemma ActionAlong(site: Site, root: Root, a: Action)
    requires Safe(root) && Admissible(root, a)
    ensures SafeAlong(root, PlanOf(site, root, a)) && AtomicFor(root, PlanOf(site, root, a))
  {
    match a
    case Publish(v, now, attribution, files) =>
      PublishAlong(site, FirstDraft(v, now, attribution), files, root);
    case Rollback(v) =>
      PlainAccepted(site, root, v);
      if CanRollback(root, v) {
        PointAlong(root, v);
        assert PointPlan(v)[..|PointPlan(v)| - 1] == PointPlan(v)[..2];
      } else {
        AlongNone(root);
      }
    case Prune(keep) =>
      PruneTargetsAreOld(root, keep);
      forall v | v in PruneTargets(root, keep) ensures v != CURRENT { assert IsVersionDir(root, v); }
      RemovalsAlong(root, PruneTargets(root, keep));
    case Discard(v) =>
      BuildDirIsNotOrdinary(v);
      QuietAlong(root, [RemoveAll(BuildDir(v))]);
  }

  // ----- whole histories -----

  /** One operation and the number of its calls that went through. */
  datatype Event = Event(action: Action, cut: nat)

  ghost function After(site: Site, root: Root, history: seq<Event>): Root {
    if history == [] then root
    else
      var e := history[|history| - 1];
      var before := After(site, root, history[..|history| - 1]);
      Run(before, Cut(PlanOf(site, before, e.action), e.cut))
  }

  ghost predicate AllAdmissible(site: Site, root: Root, history: seq<Event>) {
    history == [] ||
    (AllAdmissible(site, root, history[..|history| - 1])
     && Admissible(After(site, root, history[..|history| - 1]), history[|history| - 1].action))
  }

  /** Crash safety. After any history of publishing, rolling back, pruning and cleaning up,
      each cut off after any number of calls, the directory is safe: current is absent or
      names a complete set, and so does every version that Rollback would accept. */
  lemma {:induction false} CrashSafety(site: Site, root: Root, history: seq<Event>)
    requires Safe(root) && AllAdmissible(site, root, history)
    ensures Safe(After(site, root, history))
  {
    if history != [] {
      var front, e := history[..|history| - 1], history[|history| - 1];
      CrashSafety(site, root, front);
      var before := After(site, root, front);
      var plan := PlanOf(site, before, e.action);
      ActionAlong(site, before, e.action);
      assert plan[..|plan|] == plan;
    }
  }

  // ----- what was added is what is served -----

  lemma {:induction false} StoredBodyIsTheOneAdded(site: Site, d: Draft, files: seq<ListFile>, rel: string)
    requires rel in FilesBuilt(site, d, files) && FilesBuilt(site, d, files)[rel].Stored?
    ensures exists f :: f in files && FilesBuilt(site, d, files)[rel].body == f.body
  {
    var front, f := files[..|files| - 1], files[|files| - 1];
    assert f in files;
    if rel in FilesBuilt(site, d, front) && FilesBuilt(site, d, files)[rel] == FilesBuilt(site, d, front)[rel] {
      StoredBodyIsTheOneAdded(site, d, front, rel);
    }
  }

  /** The bodies Render makes: the checksum is the hash of the bytes. */
  ghost predicate HashedBodies(files: seq<ListFile>) {
    forall f :: f in files ==> f.body.checksum == Sha256(f.body.bytes)
  }

  lemma FinalEntry(site: Site, d: Draft, files: seq<ListFile>, f: ListFile)
    requires Empty(d) && Addable(files) && f in files
    ensures Recorded(DraftAfter(d, files), f)
    ensures var e := FindEntry(ManifestOf(DraftAfter(d, files)), f.tenant, f.name).value;
            var rel := Target(f.tenant, f.name, e);
            Resolves(FinalFiles(site, d, files), rel, f.body.checksum)
            && rel in FilesBuilt(site, d, files) && FilesBuilt(site, d, files)[rel] == FinalFiles(site, d, files)[rel]
  {
    var d2 := DraftAfter(d, files);
    BuiltInvariant(site, d, files);
    assert Recorded(d2, f);
    var e := FindEntry(ManifestOf(d2), f.tenant, f.name).value;
    WrittenPathsNonempty(d2, files, FilesBuilt(site, d, files));
    ResolvesWithManifest(d2, FilesBuilt(site, d, files), d2.byChecksum[e.etag], e.etag);
  }

  /** Where a key leads in a directory whose current set is this one. */
  lemma LookupInFinal(site: Site, d: Draft, files: seq<ListFile>, root: Root, f: ListFile)
    requires Empty(d) && Addable(files) && f in files && d.version != ""
    requires CurrentOf(root) == Some(d.version) && d.version in root && root[d.version] == Dir(FinalFiles(site, d, files))
    ensures var e := FindEntry(ManifestOf(DraftAfter(d, files)), f.tenant, f.name);
            e.Some? && LookupFile(root, f.tenant, f.name) == Ok(FileRef(d.version, Target(f.tenant, f.name, e.value), e.value))
  {
    FinalEntry(site, d, files, f);
    assert ManifestAt(root, d.version) == Some(ManifestOf(DraftAfter(d, files)));
  }

  /** Storing content once is invisible: after a publish that ran to its end, looking a key up
      gives its own ETag and entry count, and a file holding exactly the bytes added under
      that key, whichever file of the set they were first written for. */
  lemma PublishedFilesAreTheOnesAdded(site: Site, d: Draft, files: seq<ListFile>, root: Root, f: ListFile)
    requires Safe(root) && Empty(d) && Addable(files) && Ordinary(d.version) && CurrentOf(root) != Some(d.version)
    requires DraftAfter(d, files).lists != map[] && f in files && HashedBodies(files)
    ensures var after := Run(root, PublishPlan(site, d, files));
            var res := LookupFile(after, f.tenant, f.name);
            && res.Ok? && res.value.version == d.version
            && res.value.entry.etag == f.body.checksum && res.value.entry.entries == f.body.entries
            && var c := ContentAt(after, In(res.value.version, res.value.rel));
               c.Some? && c.value.Stored? && c.value.body.bytes == f.body.bytes
               && ContentAt(after, In(res.value.version, GzipPath(res.value.rel))) == Some(Gzipped(c.value.header, c.value.body))
  {
    var after := Run(root, PublishPlan(site, d, files));
    PublishAlong(site, d, files, root);
    SwitchedTo(root, PublishPlan(site, d, files), d.version, FinalFiles(site, d, files));
    FinalEntry(site, d, files, f);
    LookupInFinal(site, d, files, after, f);
    var e := FindEntry(ManifestOf(DraftAfter(d, files)), f.tenant, f.name).value;
    StoredBodyIsTheOneAdded(site, d, files, Target(f.tenant, f.name, e));
  }

  lemma SwitchedTo(root: Root, plan: seq<Call>, v: string, files: map<string, Content>)
    requires SwitchesAtEnd(root, plan, Some((v, Dir(files))))
    ensures var after := Run(root, plan); CurrentOf(after) == Some(v) && v in after && after[v] == Dir(files)
  {
  }
}
