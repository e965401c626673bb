/** Builds among rollbacks, prunes and clean-ups: each finds the directory fit for the next, gets a
    version name of its own, and with nothing new to publish does nothing at all. */
module BuildRuns {
  import opened Names
  import opened Rules
  import opened Collapsing
  import opened Rendering
  import opened Disks
  import opened SnapshotSets
  import opened SnapshotStores
  import opened Dedup
  import opened SnapshotSafety
  import opened SnapshotRuns
  import opened VersionDirs
  import opened Builders
  import opened Rebuild
  import opened SetDigests
  import opened Publishing
  import opened BuildKeys

  /** Every version with a manifest is named after its own content. */
  ghost predicate AllNamed(root: Root, hex: Hex) {
    forall v :: Ordinary(v) && CanRollback(root, v) ==> NamedFiles(root[v].files, v, hex)
  }

  ghost predicate Fit(root: Root, hex: Hex) {
    Safe(root) && AllNamed(root, hex)
  }

  lemma FitMeansNamed(root: Root, hex: Hex) returns (stamp: string)
    requires Fit(root, hex) && CurrentOf(root).Some?
    ensures NamedAt(root, stamp, hex)
  {
    var v := CurrentOf(root).value;
    assert NamedFiles(root[v].files, v, hex);
    stamp :| NamedAfter(root[v].files[MANIFEST].manifest, v, stamp, hex);
  }

  /** One run of Build on a directory: what it was given, what it issued, what it answered. */
  datatype Built = Built(data: Data, format: Format, arrange: seq<OutFile> -> seq<OutFile>, stamp: string, now: string,
                         keep: nat, issued: seq<Call>, res: Result<BuildResult, BuildError>)

  ghost predicate RanOn(site: Site, root: Root, b: Built) {
    BuildOutcome(site, root, b.keep, b.data, b.format, b.arrange, b.stamp, b.now, b.issued, b.res)
  }

  ghost function FilesOf(b: Built): seq<OutFile>
    requires Renderable(b.data.tenants, b.format)
  {
    AllFiles(b.data.tenants, b.data.base, b.format)
  }

  function DraftOf(site: Site, b: Built, files: seq<OutFile>): Draft {
    DraftFor(site, b.data, files, b.stamp, b.now)
  }

  function ListsOf(b: Built, files: seq<OutFile>): seq<ListFile> {
    AsListFiles(b.arrange(files), b.data.labels)
  }

  /** Safe and distinct names without NUL, a proper time, and a sort that loses nothing. */
  ghost predicate WellGiven(b: Built) {
    IsStamp(b.stamp) && (Renderable(b.data.tenants, b.format) ==>
      && GoodInputs(b.data.tenants, b.data.base) && NulFreeInputs(b.data.tenants, b.data.base)
      && multiset(b.arrange(FilesOf(b))) == multiset(FilesOf(b)))
  }

  /** Made in the second the published version was made in, of other content whose digest begins
      with the same eight digits. */
  ghost predicate Collides(root: Root, files: seq<OutFile>, stamp: string, hex: Hex) {
    NamedAt(root, stamp, hex) && Tail(hex(SetDigestOf(files, hex))) == Tail(hex(TableDigest(ShownTable(root).value, hex)))
  }

  lemma KeysAreDistinct(b: Built)
    requires Renderable(b.data.tenants, b.format) && GoodInputs(b.data.tenants, b.data.base)
    ensures SafeFiles(FilesOf(b)) && DistinctKeys(FilesOf(b))
  {
    SafeFilesIff(b.data.tenants, b.data.base, b.format);
    BuildKeysNoRepeat(b.data.tenants, b.data.base, b.format);
    DistinctKeysNoRepeat(FilesOf(b));
  }

  lemma KeysAreNulFree(b: Built)
    requires Renderable(b.data.tenants, b.format) && WellGiven(b)
    ensures NulFreeTable(KeyMap(FilesOf(b)))
  {
    KeysAreDistinct(b);
    forall k | k in KeyMap(FilesOf(b)) ensures '\0' !in k { NulFreeKeys(b.data.tenants, b.data.base, b.format, k); }
  }

  /** Save for a collision, a build with something new may publish: what it commits is
      admissible in the directory it finds. */
  lemma BuildIsAdmissible(site: Site, root: Root, b: Built)
    requires GoodHex(site.hex) && Fit(root, site.hex) && WellGiven(b) && Renderable(b.data.tenants, b.format)
    requires ReadableManifest(root) && !IsUnchanged(root, FilesOf(b)) && !Collides(root, FilesOf(b), b.stamp, site.hex)
    ensures var files := FilesOf(b);
            Admissible(root, Action.Publish(VersionFor(b.stamp, files, site.hex), b.now, b.data.attribution, ListsOf(b, files)))
  {
    var files := FilesOf(b);
    KeysAreDistinct(b);
    KeysAreNulFree(b);
    NewVersionIsOrdinary(b.stamp, site.hex(SetDigestOf(files, site.hex)));
    BuildIsAddableIff(b.data.tenants, b.data.base, b.format, b.arrange(files), b.data.labels);
    if CurrentOf(root).Some? {
      var was := FitMeansNamed(root, site.hex);
      TakesPublishedNameIff(root, files, site.hex, b.stamp, was);
    }
  }

  // ----- one build, call by call -----

  ghost predicate FitAlong(root: Root, calls: seq<Call>, hex: Hex) {
    forall n :: 0 <= n <= |calls| ==> Fit(Run(root, calls[..n]), hex)
  }

  /** Safe calls that add no version directory. */
  lemma ShrinkStaysFit(root: Root, calls: seq<Call>, hex: Hex)
    requires Fit(root, hex) && SafeAlong(root, calls) && forall c :: c in calls ==> Shrinks(c)
    ensures FitAlong(root, calls, hex)
  {
    forall n | 0 <= n <= |calls| ensures Fit(Run(root, calls[..n]), hex) { ShrinkAlong(root, calls, n); }
  }

  lemma FitAlongConcat(root: Root, a: seq<Call>, b: seq<Call>, hex: Hex)
    requires FitAlong(root, a, hex) && FitAlong(Run(root, a), b, hex)
    ensures FitAlong(root, a + b, hex)
  {
    forall n | 0 <= n <= |a + b| ensures Fit(Run(root, (a + b)[..n]), hex) {
      if n <= |a| {
        assert (a + b)[..n] == a[..n];
      } else {
        assert (a + b)[..n] == a + b[..n - |a|];
        RunConcat(root, a, b[..n - |a|]);
      }
    }
  }

  lemma FitAlongPart(root: Root, calls: seq<Call>, n: nat, hex: Hex)
    requires FitAlong(root, calls, hex) && n <= |calls|
    ensures FitAlong(root, calls[..n], hex)
  {
    forall k | 0 <= k <= n ensures Fit(Run(root, calls[..n][..k]), hex) { assert calls[..n][..k] == calls[..k]; }
  }

  lemma FitAtTheEnd(root: Root, calls: seq<Call>, hex: Hex)
    requires FitAlong(root, calls, hex)
    ensures Fit(Run(root, calls), hex)
  {
    assert calls[..|calls|] == calls;
  }

  lemma OwnSetIsNamed(before: Root, after: Root, v: string, files: map<string, Content>, hex: Hex)
    requires AllNamed(before, hex) && OldOrOwn(before, after, v, files) && NamedFiles(files, v, hex)
    ensures AllNamed(after, hex)
  {
    forall x | Ordinary(x) && CanRollback(after, x) ensures NamedFiles(after[x].files, x, hex) {
      if after[x] != Dir(files) || x != v { assert CanRollback(before, x); }
    }
  }

  lemma PlanStaysFit(site: Site, root: Root, b: Built)
    requires GoodHex(site.hex) && Fit(root, site.hex) && WellGiven(b) && Renderable(b.data.tenants, b.format)
    requires ReadableManifest(root) && !IsUnchanged(root, FilesOf(b)) && !Collides(root, FilesOf(b), b.stamp, site.hex)
    ensures var files := FilesOf(b);
            FitAlong(root, PublishPlan(site, DraftOf(site, b, files), ListsOf(b, files)), site.hex)
  {
    var files := FilesOf(b);
    var d, all := DraftOf(site, b, files), ListsOf(b, files);
    var plan := PublishPlan(site, d, all);
    BuildIsAdmissible(site, root, b);
    PublishAlong(site, d, all, root);
    KeysAreDistinct(b);
    KeysAreNulFree(b);
    BuildNamesItself(site, d, files, b.arrange(files), b.data.labels, b.stamp);
    forall n | 0 <= n <= |plan| ensures Fit(Run(root, plan[..n]), site.hex) {
      PublishedDirs(site, d, all, root, n);
      OwnSetIsNamed(root, Run(root, plan[..n]), d.version, FinalFiles(site, d, all), site.hex);
    }
  }

  lemma ActionStaysFit(site: Site, root: Root, a: Action)
    requires Fit(root, site.hex) && Admissible(root, a) && !a.Publish?
    ensures FitAlong(root, PlanOf(site, root, a), site.hex)
  {
    ActionAlong(site, root, a);
    OtherActionsShrink(site, root, a);
    ShrinkStaysFit(root, PlanOf(site, root, a), site.hex);
  }

  lemma TidyingStaysFit(site: Site, root: Root, mid: seq<Call>, version: string, keep: nat, ok: bool)
    requires Fit(Run(root, mid), site.hex)
    ensures FitAlong(Run(root, mid), Tidying(root, mid, version, keep, ok), site.hex)
  {
    TidyingIsPlanned(site, root, mid, version, keep, ok);
    ActionStaysFit(site, Run(root, mid), TidyingAction(version, keep, ok));
  }

  /** At every point of a build, also one that fails or dies on the way, the directory is fit
      for the next one. */
  lemma BuildStaysFit(site: Site, root: Root, b: Built)
    requires GoodHex(site.hex) && Fit(root, site.hex) && WellGiven(b) && RanOn(site, root, b)
    requires Renderable(b.data.tenants, b.format) ==> !Collides(root, FilesOf(b), b.stamp, site.hex)
    ensures FitAlong(root, b.issued, site.hex)
  {
    SafeMeansComparable(root);
    if b.issued == [] {
      assert b.issued[..0] == [] && Run(root, []) == root;
    } else {
      var files := FilesOf(b);
      var d, all := DraftOf(site, b, files), ListsOf(b, files);
      AnswerIsExact(site.base, root, files, false);
      PlanStaysFit(site, root, b);
      var mid :| PublishTrace([], mid, b.issued, PublishPlan(site, d, all), Tidying(root, mid, d.version, b.keep, b.res.Ok?), b.res.Ok?);
      TraceStaysFit(site, root, mid, b.issued, PublishPlan(site, d, all), d.version, b.keep, b.res.Ok?);
    }
  }

  lemma TraceStaysFit(site: Site, root: Root, mid: seq<Call>, issued: seq<Call>, plan: seq<Call>, version: string, keep: nat, ok: bool)
    requires FitAlong(root, plan, site.hex) && PublishTrace([], mid, issued, plan, Tidying(root, mid, version, keep, ok), ok)
    ensures FitAlong(root, issued, site.hex)
  {
    var tidy := Tidying(root, mid, version, keep, ok);
    var n: nat :| Reached([], mid, plan, n);
    var k: nat :| Reached(mid, issued, tidy, k);
    assert mid == plan[..n];
    FitAlongPart(root, plan, n, site.hex);
    FitAtTheEnd(root, mid, site.hex);
    TidyingStaysFit(site, root, mid, version, keep, ok);
    FitAlongPart(Run(root, mid), tidy, k, site.hex);
    FitAlongConcat(root, mid, tidy[..k], site.hex);
  }

  // ----- what readers see of a build -----

  /** What was published before, or the build's own finished set. */
  ghost predicate OldOrNew(site: Site, root: Root, b: Built, now: Root)
    requires Renderable(b.data.tenants, b.format)
  {
    var d := DraftOf(site, b, FilesOf(b));
    Published(now) == Published(root) || Published(now) == Some((d.version, Dir(FinalFiles(site, d, ListsOf(b, FilesOf(b))))))
  }

  lemma SwitchSeen(root: Root, plan: seq<Call>, last: Option<(string, Node)>, n: nat)
    requires SwitchesAtEnd(root, plan, last) && n <= |plan|
    ensures Published(Run(root, plan[..n])) == Published(root) || Published(Run(root, plan[..n])) == last
  {
    if n < |plan| {
      assert plan[..|plan| - 1][..n] == plan[..n];
    } else {
      assert plan[..n] == plan;
    }
  }

  lemma PublishSeen(site: Site, d: Draft, files: seq<ListFile>, root: Root, n: nat)
    requires Safe(root) && Empty(d) && Addable(files) && Ordinary(d.version) && CurrentOf(root) != Some(d.version)
    requires n <= |PublishPlan(site, d, files)|
    ensures var now := Published(Run(root, PublishPlan(site, d, files)[..n]));
            now == Published(root) || now == Some((d.version, Dir(FinalFiles(site, d, files))))
  {
    PublishAlong(site, d, files, root);
    if DraftAfter(d, files).lists != map[] {
      SwitchSeen(root, PublishPlan(site, d, files), Some((d.version, Dir(FinalFiles(site, d, files)))), n);
    }
  }

  lemma PlanSeen(site: Site, root: Root, b: Built, n: nat)
    requires GoodHex(site.hex) && Fit(root, site.hex) && WellGiven(b) && Renderable(b.data.tenants, b.format)
    requires ReadableManifest(root) && !IsUnchanged(root, FilesOf(b)) && !Collides(root, FilesOf(b), b.stamp, site.hex)
    requires n <= |PublishPlan(site, DraftOf(site, b, FilesOf(b)), ListsOf(b, FilesOf(b)))|
    ensures OldOrNew(site, root, b, Run(root, PublishPlan(site, DraftOf(site, b, FilesOf(b)), ListsOf(b, FilesOf(b)))[..n]))
  {
    BuildIsAdmissible(site, root, b);
    PublishSeen(site, DraftOf(site, b, FilesOf(b)), ListsOf(b, FilesOf(b)), root, n);
  }

  lemma TidyingUnseen(root: Root, mid: seq<Call>, version: string, keep: nat, ok: bool)
    requires Safe(Run(root, mid))
    ensures UnseenAlong(Run(root, mid), Tidying(root, mid, version, keep, ok))
  {
    var now := Run(root, mid);
    if ok {
      PruneTargetsAreOld(now, keep);
      forall v | v in PruneTargets(now, keep) ensures v != CURRENT { assert IsVersionDir(now, v); }
      RemovalsAlong(now, PruneTargets(now, keep));
    } else {
      BuildDirIsNotOrdinary(version);
      QuietAlong(now, [RemoveAll(BuildDir(version))]);
    }
  }

  /** A cut through the calls of a publish falls into its plan, or into the tidying after it. */
  lemma CutOfTrace(root: Root, mid: seq<Call>, issued: seq<Call>, plan: seq<Call>, tidy: seq<Call>, ok: bool, n: nat) returns (k: nat, m: nat)
    requires PublishTrace([], mid, issued, plan, tidy, ok) && n <= |issued|
    ensures k <= |plan| && m <= |tidy| && (m > 0 ==> mid == plan[..k])
    ensures Run(root, issued[..n]) == Run(Run(root, plan[..k]), tidy[..m])
  {
    var p: nat :| Reached([], mid, plan, p);
    var q: nat :| Reached(mid, issued, tidy, q);
    assert mid == plan[..p];
    if n <= |mid| {
      k, m := n, 0;
      assert issued[..n] == plan[..n] && tidy[..0] == [];
    } else {
      k, m := p, n - |mid|;
      assert issued[..n] == mid + tidy[..m];
      RunConcat(root, mid, tidy[..m]);
    }
  }

  /** Wherever a build stops, readers see what they saw before or the whole new set: the set being
      served is never touched, not even after a rollback to an old version. */
  lemma BuildSparesServed(site: Site, root: Root, b: Built, n: nat)
    requires GoodHex(site.hex) && Fit(root, site.hex) && WellGiven(b) && RanOn(site, root, b) && n <= |b.issued|
    requires Renderable(b.data.tenants, b.format) && !Collides(root, FilesOf(b), b.stamp, site.hex)
    ensures OldOrNew(site, root, b, Run(root, b.issued[..n]))
  {
    SafeMeansComparable(root);
    if b.issued == [] {
      assert b.issued[..n] == [];
    } else {
      BuildHasTrace(site, root, b);
      var d, all := DraftOf(site, b, FilesOf(b)), ListsOf(b, FilesOf(b));
      var plan, ok := PublishPlan(site, d, all), b.res.Ok?;
      var mid :| PublishTrace([], mid, b.issued, plan, Tidying(root, mid, d.version, b.keep, ok), ok);
      TraceSeen(site, root, b, mid, n);
    }
  }

  lemma BuildHasTrace(site: Site, root: Root, b: Built)
    requires Safe(root) && ReadableManifest(root) && RanOn(site, root, b) && b.issued != []
    ensures Renderable(b.data.tenants, b.format) && !IsUnchanged(root, FilesOf(b))
    ensures PublishRan(site, root, DraftOf(site, b, FilesOf(b)), ListsOf(b, FilesOf(b)), b.keep, b.issued, b.res.Ok?)
  {
    AnswerIsExact(site.base, root, FilesOf(b), false);
  }

  lemma TraceSeen(site: Site, root: Root, b: Built, mid: seq<Call>, n: nat)
    requires GoodHex(site.hex) && Fit(root, site.hex) && WellGiven(b) && Renderable(b.data.tenants, b.format)
    requires ReadableManifest(root) && !IsUnchanged(root, FilesOf(b)) && !Collides(root, FilesOf(b), b.stamp, site.hex)
    requires var d := DraftOf(site, b, FilesOf(b));
             PublishTrace([], mid, b.issued, PublishPlan(site, d, ListsOf(b, FilesOf(b))), Tidying(root, mid, d.version, b.keep, b.res.Ok?), b.res.Ok?)
    requires n <= |b.issued|
    ensures OldOrNew(site, root, b, Run(root, b.issued[..n]))
  {
    var d, all := DraftOf(site, b, FilesOf(b)), ListsOf(b, FilesOf(b));
    var plan, tidy := PublishPlan(site, d, all), Tidying(root, mid, d.version, b.keep, b.res.Ok?);
    var k, m := CutOfTrace(root, mid, b.issued, plan, tidy, b.res.Ok?, n);
    PlanSeen(site, root, b, k);
    if m == 0 {
      assert tidy[..0] == [];
    } else {
      PlanStaysFit(site, root, b);
      assert Fit(Run(root, plan[..k]), site.hex);
      TidyingUnseen(root, mid, d.version, b.keep, b.res.Ok?);
    }
  }

  // ----- histories -----

  /** A build or another operation, and how many of its calls went through. */
  datatype Step = BuildStep(build: Built, cut: nat) | OtherStep(action: Action, cut: nat)

  ghost function CallsOf(site: Site, root: Root, s: Step): seq<Call> {
    match s
    case BuildStep(b, n) => Cut(b.issued, n)
    case OtherStep(a, n) => Cut(PlanOf(site, root, a), n)
  }

  ghost function AfterSteps(site: Site, root: Root, steps: seq<Step>): Root {
    if steps == [] then root
    else
      var before := AfterSteps(site, root, steps[..|steps| - 1]);
      Run(before, CallsOf(site, before, steps[|steps| - 1]))
  }

  /** A build of proper data that does not collide, or a rollback to a listed version, a prune or
      a clean-up. */
  ghost predicate Proper(site: Site, root: Root, s: Step) {
    match s
    case BuildStep(b, _) =>
      WellGiven(b) && RanOn(site, root, b)
      && (Renderable(b.data.tenants, b.format) ==> !Collides(root, FilesOf(b), b.stamp, site.hex))
    case OtherStep(a, _) => !a.Publish? && Admissible(root, a)
  }

  ghost predicate AllProper(site: Site, root: Root, steps: seq<Step>) {
    steps == [] ||
    var front, s := steps[..|steps| - 1], steps[|steps| - 1];
    AllProper(site, root, front) && Proper(site, AfterSteps(site, root, front), s)
  }

  lemma StepStaysFit(site: Site, root: Root, s: Step)
    requires GoodHex(site.hex) && Fit(root, site.hex) && Proper(site, root, s)
    ensures Fit(Run(root, CallsOf(site, root, s)), site.hex)
  {
    match s
    case BuildStep(b, n) =>
      BuildStaysFit(site, root, b);
      FitAtACut(root, b.issued, n, site.hex);
    case OtherStep(a, n) =>
      ActionStaysFit(site, root, a);
      FitAtACut(root, PlanOf(site, root, a), n, site.hex);
  }

  lemma FitAtACut(root: Root, calls: seq<Call>, n: nat, hex: Hex)
    requires FitAlong(root, calls, hex)
    ensures Fit(Run(root, Cut(calls, n)), hex)
  {
    FitAtTheEnd(root, calls, hex);
  }

  /** After any history of builds of any data, rollbacks, prunes and clean-ups, each cut off
      anywhere, the directory is safe and every version in it is named after its content; so the
      next build that has something new never writes over the set that is being served, also
      after a rollback, except by a collision. */
  lemma {:induction false} HistoriesStayFit(site: Site, root: Root, steps: seq<Step>)
    requires GoodHex(site.hex) && Fit(root, site.hex) && AllProper(site, root, steps)
    ensures Fit(AfterSteps(site, root, steps), site.hex)
  {
    if steps != [] {
      var front, s := steps[..|steps| - 1], steps[|steps| - 1];
      HistoriesStayFit(site, root, front);
      StepStaysFit(site, AfterSteps(site, root, front), s);
    }
  }

  // ----- building the same again -----

  lemma TableAfterPublish(site: Site, root: Root, b: Built)
    requires GoodHex(site.hex) && Fit(root, site.hex) && WellGiven(b) && Renderable(b.data.tenants, b.format)
    requires ReadableManifest(root) && !IsUnchanged(root, FilesOf(b)) && !Collides(root, FilesOf(b), b.stamp, site.hex)
    requires DraftAfter(DraftOf(site, b, FilesOf(b)), ListsOf(b, FilesOf(b))).lists != map[]
    ensures var files := FilesOf(b);
            var after := Run(root, PublishPlan(site, DraftOf(site, b, files), ListsOf(b, files)));
            Safe(after) && ReadableManifest(after) && IsUnchanged(after, files)
  {
    var files := FilesOf(b);
    var d, ordered := DraftOf(site, b, files), b.arrange(files);
    BuildIsAdmissible(site, root, b);
    KeysAreDistinct(b);
    RebuildSkippedIff(site, d, files, ordered, b.data.labels, root);
    PlanStaysFit(site, root, b);
    FitAtTheEnd(root, PublishPlan(site, d, AsListFiles(ordered, b.data.labels)), site.hex);
  }

  lemma PruningKeepsTheAnswer(after: Root, keep: nat, k: nat, files: seq<OutFile>)
    requires Safe(after) && ReadableManifest(after) && IsUnchanged(after, files)
    ensures var tidied := Run(after, Cut(Removals(PruneTargets(after, keep)), k)); ReadableManifest(tidied) && IsUnchanged(tidied, files)
  {
    PruneUnseen(after, keep, k);
    UnchangedDependsOnPublished(after, Run(after, Cut(Removals(PruneTargets(after, keep)), k)), files);
  }

  lemma TableAfterTrace(root: Root, plan: seq<Call>, mid: seq<Call>, issued: seq<Call>, version: string, keep: nat, files: seq<OutFile>)
    requires PublishTrace([], mid, issued, plan, Tidying(root, mid, version, keep, true), true)
    requires Safe(Run(root, plan)) && ReadableManifest(Run(root, plan)) && IsUnchanged(Run(root, plan), files)
    ensures ReadableManifest(Run(root, issued)) && IsUnchanged(Run(root, issued), files)
  {
    assert [] + plan == plan;
    var k := PruneIsCut(root, plan, issued, keep);
    PruningKeepsTheAnswer(Run(root, plan), keep, k, files);
  }

  lemma BuildAnswered(site: Site, root: Root, b: Built)
    requires RanOn(site, root, b) && b.res.Ok?
    ensures Renderable(b.data.tenants, b.format) && MayAnswer(site.base, root, FilesOf(b), b.res.value.skipped)
    ensures if b.res.value.skipped then b.issued == []
            else PublishRan(site, root, DraftOf(site, b, FilesOf(b)), ListsOf(b, FilesOf(b)), b.keep, b.issued, true)
  {
  }

  lemma TableAfterPublishRan(site: Site, root: Root, b: Built)
    requires GoodHex(site.hex) && Fit(root, site.hex) && WellGiven(b) && Renderable(b.data.tenants, b.format)
    requires ReadableManifest(root) && !IsUnchanged(root, FilesOf(b)) && !Collides(root, FilesOf(b), b.stamp, site.hex)
    requires PublishRan(site, root, DraftOf(site, b, FilesOf(b)), ListsOf(b, FilesOf(b)), b.keep, b.issued, true)
    ensures ReadableManifest(Run(root, b.issued)) && IsUnchanged(Run(root, b.issued), FilesOf(b))
  {
    var d, all := DraftOf(site, b, FilesOf(b)), ListsOf(b, FilesOf(b));
    var plan := PublishPlan(site, d, all);
    TableAfterPublish(site, root, b);
    var mid :| PublishTrace([], mid, b.issued, plan, Tidying(root, mid, d.version, b.keep, true), true);
    TableAfterTrace(root, plan, mid, b.issued, d.version, b.keep, FilesOf(b));
  }

  lemma BuildEndsSafe(site: Site, root: Root, b: Built)
    requires GoodHex(site.hex) && Fit(root, site.hex) && WellGiven(b) && RanOn(site, root, b)
    requires Renderable(b.data.tenants, b.format) ==> !Collides(root, FilesOf(b), b.stamp, site.hex)
    ensures Safe(Run(root, b.issued))
  {
    BuildStaysFit(site, root, b);
    FitAtTheEnd(root, b.issued, site.hex);
  }

  lemma AnswerIsTrue(base: seq<string>, root: Root, files: seq<OutFile>, same: bool)
    requires Safe(root) && MayAnswer(base, root, files, same)
    ensures ReadableManifest(root) && (same <==> IsUnchanged(root, files))
  {
    SafeMeansComparable(root);
    AnswerIsExact(base, root, files, same);
  }

  lemma TableAfterAnswer(site: Site, root: Root, b: Built, skipped: bool)
    requires GoodHex(site.hex) && Fit(root, site.hex) && WellGiven(b) && Renderable(b.data.tenants, b.format)
    requires !Collides(root, FilesOf(b), b.stamp, site.hex) && ReadableManifest(root) && (skipped <==> IsUnchanged(root, FilesOf(b)))
    requires if skipped then b.issued == []
             else PublishRan(site, root, DraftOf(site, b, FilesOf(b)), ListsOf(b, FilesOf(b)), b.keep, b.issued, true)
    ensures ReadableManifest(Run(root, b.issued)) && IsUnchanged(Run(root, b.issued), FilesOf(b))
  {
    if skipped {
      assert Run(root, []) == root;
    } else {
      TableAfterPublishRan(site, root, b);
    }
  }

  lemma TableAfterBuild(site: Site, root: Root, b: Built)
    requires GoodHex(site.hex) && Fit(root, site.hex) && WellGiven(b) && RanOn(site, root, b) && b.res.Ok?
    requires Renderable(b.data.tenants, b.format) ==> !Collides(root, FilesOf(b), b.stamp, site.hex)
    ensures Renderable(b.data.tenants, b.format)
    ensures var after := Run(root, b.issued); Safe(after) && ReadableManifest(after) && IsUnchanged(after, FilesOf(b))
  {
    BuildEndsSafe(site, root, b);
    BuildAnswered(site, root, b);
    AnswerIsTrue(site.base, root, FilesOf(b), b.res.value.skipped);
    TableAfterAnswer(site, root, b, b.res.value.skipped);
  }

  lemma PruneIsCut(root: Root, mid: seq<Call>, issued: seq<Call>, keep: nat) returns (k: nat)
    requires PartOf(mid, issued, Removals(PruneTargets(Run(root, mid), keep)))
    ensures Run(root, issued) == Run(Run(root, mid), Cut(Removals(PruneTargets(Run(root, mid), keep)), k))
  {
    k := PartIsCut(root, mid, issued, Removals(PruneTargets(Run(root, mid), keep)));
  }

  lemma UnchangedIsSkipped(site: Site, root: Root, b: Built)
    requires RanOn(site, root, b) && b.data.runID != 0 && b.data.tenants != [] && Renderable(b.data.tenants, b.format)
    requires Safe(root) && ReadableManifest(root) && IsUnchanged(root, FilesOf(b))
    ensures b.res == Ok(BuildResult(true, |b.data.tenants|, |b.data.base|, DefaultEntries(b.data.tenants, b.data.base, b.format)))
    ensures b.issued == []
  {
    AnswerIsExact(site.base, root, FilesOf(b), b.res.Ok? && b.res.value.skipped);
  }

  /** Build, then Build again. When a first build succeeded, a second one of the same data, at
      whatever time, answers that it was skipped and issues no call. */
  lemma SecondBuildIsSkipped(site: Site, root: Root, first: Built, second: Built)
    requires GoodHex(site.hex) && Fit(root, site.hex) && WellGiven(first) && RanOn(site, root, first) && first.res.Ok?
    requires Renderable(first.data.tenants, first.format) ==> !Collides(root, FilesOf(first), first.stamp, site.hex)
    requires second.data == first.data && second.format == first.format && RanOn(site, Run(root, first.issued), second)
    ensures second.res == Ok(first.res.value.(skipped := true)) && second.issued == []
  {
    TableAfterBuild(site, root, first);
    UnchangedIsSkipped(site, Run(root, first.issued), second);
  }
}
