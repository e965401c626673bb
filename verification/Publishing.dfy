/** internal/builder: publish and Build, the whole way from rendered files to the current file. */
module Publishing {
  import opened Rules
  import opened Collapsing
  import opened Rendering
  import opened Disks
  import opened SnapshotSets
  import opened SnapshotStores
  import opened Dedup
  import opened SnapshotSafety
  import opened SnapshotRuns
  import opened Builders
  import opened SetDigests

  lemma AddsPlanStep(site: Site, d: Draft, files: seq<ListFile>, i: nat)
    requires i < |files|
    ensures var f := files[i];
            && DraftAfter(d, files[..i + 1]) == Added(DraftAfter(d, files[..i]), f.tenant, f.name, f.body)
            && AddsPlan(site, d, files[..i + 1]) ==
               AddsPlan(site, d, files[..i]) + WritePlan(site, DraftAfter(d, files[..i]), Rel(f), f.header, f.body)
  {
    assert files[..i + 1][..i] == files[..i];
  }

  lemma {:induction false} AddsPlanPrefix(before: seq<Call>, after: seq<Call>, site: Site, d: Draft, files: seq<ListFile>, i: nat)
    requires i <= |files| && PartOf(before, after, AddsPlan(site, d, files[..i]))
    ensures PartOf(before, after, AddsPlan(site, d, files))
    decreases |files| - i
  {
    if i == |files| {
      assert files[..i] == files;
    } else {
      AddsPlanStep(site, d, files, i);
      var f := files[i];
      PartOfMore(before, after, AddsPlan(site, d, files[..i]), WritePlan(site, DraftAfter(d, files[..i]), Rel(f), f.header, f.body));
      AddsPlanPrefix(before, after, site, d, files, i + 1);
    }
  }

  /** Add for the default tenant, AddTenant for the others. */
  method AddFile(target: SnapshotSet, f: ListFile) returns (ok: bool)
    requires target.disk.Valid()
    modifies target, target.disk
    ensures target.disk.Valid() && target.committed == old(target.committed)
    ensures ok ==> target.disk.calls == old(target.disk.calls) + WritePlan(target.site, old(target.Model()), Rel(f), f.header, f.body)
    ensures ok ==> target.Model() == Added(old(target.Model()), f.tenant, f.name, f.body)
    ensures PartOf(old(target.disk.calls), target.disk.calls, WritePlan(target.site, old(target.Model()), Rel(f), f.header, f.body))
  {
    ghost var c0, plan := target.disk.calls, WritePlan(target.site, target.Model(), Rel(f), f.header, f.body);
    var res;
    if f.tenant == "" {
      res := target.Add(f.name, f.header, f.body);
    } else {
      res := target.AddTenant(f.tenant, f.name, f.header, f.body);
    }
    ok := res.Ok?;
    if target.disk.calls == c0 { NoneOf(c0, plan); }
    if ok { Finished(c0, target.disk.calls, plan); }
  }

  /** The writing loop; it stops at the first error. */
  method AddFiles(target: SnapshotSet, files: seq<ListFile>) returns (ok: bool)
    requires target.disk.Valid()
    modifies target, target.disk
    ensures target.disk.Valid() && target.committed == old(target.committed)
    ensures ok ==> target.Model() == DraftAfter(old(target.Model()), files)
    ensures ok ==> target.disk.calls == old(target.disk.calls) + AddsPlan(target.site, old(target.Model()), files)
    ensures PartOf(old(target.disk.calls), target.disk.calls, AddsPlan(target.site, old(target.Model()), files))
  {
    ghost var c0, d, site := target.disk.calls, target.Model(), target.site;
    for i := 0 to |files|
      invariant target.disk.Valid() && target.committed == old(target.committed)
      invariant target.Model() == DraftAfter(d, files[..i])
      invariant target.disk.calls == c0 + AddsPlan(site, d, files[..i])
    {
      AddsPlanStep(site, d, files, i);
      ghost var mid := target.disk.calls;
      ok := AddFile(target, files[i]);
      ghost var more := WritePlan(site, DraftAfter(d, files[..i]), Rel(files[i]), files[i].header, files[i].body);
      if !ok {
        PartAfterPart(c0, mid, target.disk.calls, AddsPlan(site, d, files[..i]), more);
        AddsPlanPrefix(c0, target.disk.calls, site, d, files, i + 1);
        return;
      }
      Grouping(c0, AddsPlan(site, d, files[..i]), more);
    }
    assert files[..|files|] == files;
    Finished(c0, target.disk.calls, AddsPlan(site, d, files));
    ok := true;
  }

  lemma Grouping<T>(a: seq<T>, b: seq<T>, c: seq<T>)
    ensures a + b + c == a + (b + c)
  {
  }

  lemma PartAfterPart(before: seq<Call>, mid: seq<Call>, after: seq<Call>, plan: seq<Call>, rest: seq<Call>)
    requires mid == before + plan && PartOf(mid, after, rest)
    ensures PartOf(before, after, plan + rest)
  {
    var n: nat :| Reached(mid, after, rest, n);
    assert (plan + rest)[..|plan| + n] == plan + rest[..n];
    assert before + plan + rest[..n] == before + (plan + rest[..n]);
    assert Reached(before, after, plan + rest, |plan| + n);
  }

  method Attribute(target: SnapshotSet, attribution: seq<Attribution>)
    modifies target
    ensures target.Model() == old(target.Model()).(attribution := old(target.Model()).attribution + attribution)
    ensures target.committed == old(target.committed)
  {
    for i := 0 to |attribution|
      invariant target.Model() == old(target.Model()).(attribution := old(target.Model()).attribution + attribution[..i])
      invariant target.committed == old(target.committed)
    {
      target.Attribute(attribution[i]);
      assert attribution[..i + 1] == attribution[..i] + [attribution[i]];
    }
    assert attribution[..|attribution|] == attribution;
  }

  /** Adds the files to a draft set and commits it. */
  method FillAndCommit(target: SnapshotSet, files: seq<ListFile>) returns (ok: bool)
    requires target.disk.Valid() && !target.committed
    modifies target, target.disk
    ensures target.disk.Valid() && target.committed == ok
    ensures ok ==> DraftAfter(old(target.Model()), files).lists != map[]
    ensures ok ==> target.disk.calls == old(target.disk.calls)
                     + (AddsPlan(target.site, old(target.Model()), files) + CommitPlan(DraftAfter(old(target.Model()), files)))
    ensures DraftAfter(old(target.Model()), files).lists != map[] ==>
              PartOf(old(target.disk.calls), target.disk.calls,
                     AddsPlan(target.site, old(target.Model()), files) + CommitPlan(DraftAfter(old(target.Model()), files)))
    ensures DraftAfter(old(target.Model()), files).lists == map[] ==>
              PartOf(old(target.disk.calls), target.disk.calls, AddsPlan(target.site, old(target.Model()), files))
  {
    ghost var c0, d := target.disk.calls, target.Model();
    ghost var adds, commit := AddsPlan(target.site, d, files), CommitPlan(DraftAfter(d, files));
    ok := AddFiles(target, files);
    PartOfMore(c0, target.disk.calls, adds, commit);
    if !ok { return; }
    ghost var c1 := target.disk.calls;
    var res := target.Commit();
    ok := res.Ok?;
    if DraftAfter(d, files).lists != map[] { PartAfterAll(c0, c1, target.disk.calls, adds, commit, ok); }
  }

  lemma PlanInParts(site: Site, d: Draft, files: seq<ListFile>)
    ensures PublishPlan(site, d, files) == BeginPlan(d.version) +
              if DraftAfter(d, files).lists == map[] then AddsPlan(site, d, files) else AddsPlan(site, d, files) + CommitPlan(DraftAfter(d, files))
  {
    if DraftAfter(d, files).lists == map[] {
      assert BuildPlan(site, d, files) + [] == BuildPlan(site, d, files);
    } else {
      Grouping(BeginPlan(d.version), AddsPlan(site, d, files), CommitPlan(DraftAfter(d, files)));
    }
  }

  /** Begin, Attribute, the files, Commit. The set is handed back for Abort. */
  method PublishSet(store: Store, version: string, now: string, attribution: seq<Attribution>, files: seq<ListFile>)
    returns (ok: bool, draft: Option<SnapshotSet>)
    requires store.disk.Valid()
    modifies store.disk
    ensures store.disk.Valid()
    ensures draft.Some? ==> fresh(draft.value) && draft.value.disk == store.disk && draft.value.version == version && draft.value.committed == ok
    ensures var plan := PublishPlan(store.site, FirstDraft(version, now, attribution), files);
            PartOf(old(store.disk.calls), store.disk.calls, plan) && (ok ==> store.disk.calls == old(store.disk.calls) + plan)
    ensures ok ==> draft.Some? && GoodVersion(version) && DraftAfter(FirstDraft(version, now, attribution), files).lists != map[]
  {
    ghost var c0, d := store.disk.calls, FirstDraft(version, now, attribution);
    ghost var begin, rest := BeginPlan(version), if DraftAfter(d, files).lists == map[] then AddsPlan(store.site, d, files)
                                                 else AddsPlan(store.site, d, files) + CommitPlan(DraftAfter(d, files));
    PlanInParts(store.site, d, files);
    NoneOf(c0, begin + rest);
    var begun := store.Begin(version, now);
    if begun.Err? {
      if GoodVersion(version) {
        StopIsPart(c0, store.disk.calls, begin, false);
        PartOfMore(c0, store.disk.calls, begin, rest);
      }
      return false, None;
    }
    ghost var c1 := store.disk.calls;
    Finished(c0, c1, begin);
    var target := begun.value;
    Attribute(target, attribution);
    assert [] + attribution == attribution;
    assert target.Model() == d;
    ok := FillAndCommit(target, files);
    PartAfterPart(c0, c1, store.disk.calls, begin, rest);
    if ok { Grouping(c0, begin, rest); }
    draft := Some(target);
  }

  /** What publish leaves on the disk: the first calls of the plan, all of them if it succeeds;
      then, after success, removals of old versions, and after failure at most the removal of
      the build directory. */
  ghost predicate PublishTrace(before: seq<Call>, mid: seq<Call>, after: seq<Call>, plan: seq<Call>, tidy: seq<Call>, ok: bool) {
    PartOf(before, mid, plan) && (ok ==> mid == before + plan) && PartOf(mid, after, tidy)
  }

  ghost function Tidying(root: Root, mid: seq<Call>, version: string, keep: nat, ok: bool): seq<Call> {
    if ok then Removals(PruneTargets(Run(root, mid), keep)) else [RemoveAll(BuildDir(version))]
  }

  /** The calls of one publish: a beginning of its plan, the whole of it on success, and then
      part of what tidies up after it. */
  ghost predicate PublishRan(site: Site, root: Root, d: Draft, files: seq<ListFile>, keep: nat, issued: seq<Call>, ok: bool) {
    && (exists mid :: PublishTrace([], mid, issued, PublishPlan(site, d, files), Tidying(root, mid, d.version, keep, ok), ok))
    && (ok ==> DraftAfter(d, files).lists != map[])
  }

  lemma SinceBefore<T>(before: seq<T>, mid: seq<T>, after: seq<T>, plan: seq<T>, n: nat, tidy: seq<T>, k: nat)
    requires Reached(before, mid, plan, n) && Reached(mid, after, tidy, k)
    ensures before <= after && mid == before + plan[..n] && after[|before|..] == plan[..n] + tidy[..k]
    ensures Reached([], plan[..n], plan, n) && Reached(plan[..n], plan[..n] + tidy[..k], tidy, k)
    ensures mid == before + plan ==> plan[..n] == plan
  {
    Grouping(before, plan[..n], tidy[..k]);
    assert [] + plan[..n] == plan[..n];
    if mid == before + plan { assert mid[|before|..] == plan; }
  }

  lemma TraceSince(before: seq<Call>, mid: seq<Call>, after: seq<Call>, plan: seq<Call>, tidy: seq<Call>, ok: bool) returns (own: seq<Call>)
    requires PublishTrace(before, mid, after, plan, tidy, ok)
    ensures before <= after && mid == before + own && PublishTrace([], own, after[|before|..], plan, tidy, ok)
  {
    var n: nat :| Reached(before, mid, plan, n);
    var k: nat :| Reached(mid, after, tidy, k);
    own := plan[..n];
    SinceBefore(before, mid, after, plan, n, tidy, k);
    assert [] + plan == plan;
  }

  lemma PublishedSince(site: Site, start: Root, before: seq<Call>, mid: seq<Call>, after: seq<Call>, d: Draft, files: seq<ListFile>, keep: nat, ok: bool)
    requires PartOf(before, mid, PublishPlan(site, d, files)) && (ok ==> mid == before + PublishPlan(site, d, files))
    requires PartOf(mid, after, Tidying(start, mid, d.version, keep, ok))
    requires ok ==> DraftAfter(d, files).lists != map[]
    ensures before <= after && after == before + after[|before|..]
    ensures PublishRan(site, Run(start, before), d, files, keep, after[|before|..], ok)
  {
    var own := TraceSince(before, mid, after, PublishPlan(site, d, files), Tidying(start, mid, d.version, keep, ok), ok);
    SameTidying(start, before, own, d.version, keep, ok);
  }

  lemma SameTidying(start: Root, before: seq<Call>, own: seq<Call>, version: string, keep: nat, ok: bool)
    ensures Tidying(Run(start, before), own, version, keep, ok) == Tidying(start, before + own, version, keep, ok)
  {
    RunConcat(start, before, own);
  }

  /** The way out of publish: old versions go after success, the build directory after failure. */
  method Tidy(store: Store, ok: bool, draft: Option<SnapshotSet>, ghost version: string)
    requires store.disk.Valid()
    requires draft.Some? ==> draft.value.disk == store.disk && draft.value.committed == ok && draft.value.version == version
    modifies store.disk
    ensures store.disk.Valid()
    ensures PartOf(old(store.disk.calls), store.disk.calls, Tidying(store.disk.start, old(store.disk.calls), version, store.keep, ok))
  {
    ghost var tidying := Tidying(store.disk.start, store.disk.calls, version, store.keep, ok);
    if ok {
      var removed, pruned := store.Prune();
      StopIsPart(old(store.disk.calls), store.disk.calls, tidying, pruned);
    } else if draft.Some? {
      var aborted := draft.value.Abort();
      StopIsPart(old(store.disk.calls), store.disk.calls, tidying, aborted);
    } else {
      NoneOf(store.disk.calls, tidying);
    }
  }

  method Publish(store: Store, version: string, now: string, attribution: seq<Attribution>, files: seq<ListFile>)
    returns (ok: bool, ghost issued: seq<Call>)
    requires store.disk.Valid()
    modifies store.disk
    ensures store.disk.Valid() && store.disk.calls == old(store.disk.calls) + issued
    ensures PublishRan(store.site, old(store.disk.root), FirstDraft(version, now, attribution), files, store.keep, issued, ok)
    ensures ok ==> GoodVersion(version)
  {
    ghost var before, d := store.disk.calls, FirstDraft(version, now, attribution);
    var draft;
    ok, draft := PublishSet(store, version, now, attribution, files);
    ghost var mid := store.disk.calls;
    Tidy(store, ok, draft, version);
    PublishedSince(store.site, store.disk.start, before, mid, store.disk.calls, d, files, store.keep, ok);
    issued := store.disk.calls[|before|..];
  }

  lemma StopIsPart(before: seq<Call>, after: seq<Call>, plan: seq<Call>, ok: bool)
    requires Progressed(before, after, plan, ok)
    ensures PartOf(before, after, plan)
  {
  }

  lemma PartIsCut(start: Root, before: seq<Call>, after: seq<Call>, plan: seq<Call>) returns (n: nat)
    requires PartOf(before, after, plan)
    ensures Run(start, after) == Run(Run(start, before), Cut(plan, n))
  {
    n :| Reached(before, after, plan, n);
    RunConcat(start, before, plan[..n]);
  }

  lemma TwoEvents(site: Site, root: Root, first: Event, second: Event)
    ensures var mid := Run(root, Cut(PlanOf(site, root, first.action), first.cut));
            After(site, root, [first, second]) == Run(mid, Cut(PlanOf(site, mid, second.action), second.cut))
  {
    assert [first, second][..1] == [first] && [first][..0] == [];
    assert After(site, root, []) == root;
  }

  lemma TwoEventsAreSafe(site: Site, root: Root, first: Event, second: Event)
    requires Safe(root) && Admissible(root, first.action) && (second.action.Prune? || second.action.Discard?)
    ensures Safe(After(site, root, [first, second]))
  {
    assert [first, second][..1] == [first] && [first][..0] == [];
    assert After(site, root, []) == root && AllAdmissible(site, root, []);
    assert AllAdmissible(site, root, [first]);
    CrashSafety(site, root, [first, second]);
  }

  function TidyingAction(version: string, keep: nat, ok: bool): Action {
    if ok then Action.Prune(keep) else Action.Discard(version)
  }

  lemma TidyingIsPlanned(site: Site, root: Root, mid: seq<Call>, version: string, keep: nat, ok: bool)
    ensures Tidying(root, mid, version, keep, ok) == PlanOf(site, Run(root, mid), TidyingAction(version, keep, ok))
  {
  }

  lemma TwoParts(site: Site, root: Root, first: Action, mid: seq<Call>, second: Action, issued: seq<Call>) returns (history: seq<Event>)
    requires PartOf([], mid, PlanOf(site, root, first)) && PartOf(mid, issued, PlanOf(site, Run(root, mid), second))
    ensures |history| == 2 && history[0].action == first && history[1].action == second
    ensures Run(root, issued) == After(site, root, history)
    ensures Safe(root) && Admissible(root, first) && (second.Prune? || second.Discard?) ==> Safe(Run(root, issued))
  {
    var n := PartIsCut(root, [], mid, PlanOf(site, root, first));
    var k := PartIsCut(root, mid, issued, PlanOf(site, Run(root, mid), second));
    assert Run(root, []) == root;
    history := [Event(first, n), Event(second, k)];
    TwoEvents(site, root, Event(first, n), Event(second, k));
    if Safe(root) && Admissible(root, first) && (second.Prune? || second.Discard?) {
      TwoEventsAreSafe(site, root, Event(first, n), Event(second, k));
    }
  }

  /** The class and the histories speak of the same thing: wherever publish stops, for whatever
      reason, the disk is in a state that some history with that publish reaches. So crash
      safety holds of every run of the methods. */
  lemma PublishIsAHistory(site: Site, root: Root, version: string, now: string, attribution: seq<Attribution>, files: seq<ListFile>,
                          keep: nat, issued: seq<Call>, ok: bool)
    returns (history: seq<Event>)
    requires PublishRan(site, root, FirstDraft(version, now, attribution), files, keep, issued, ok)
    ensures |history| == 2 && history[0].action == Action.Publish(version, now, attribution, files)
    ensures history[1].action == TidyingAction(version, keep, ok)
    ensures Run(root, issued) == After(site, root, history)
    ensures Safe(root) && Admissible(root, history[0].action) ==> Safe(Run(root, issued))
  {
    var d := FirstDraft(version, now, attribution);
    var publish, tidying := Action.Publish(version, now, attribution, files), TidyingAction(version, keep, ok);
    var mid :| PublishTrace([], mid, issued, PublishPlan(site, d, files), Tidying(root, mid, version, keep, ok), ok);
    TidyingIsPlanned(site, root, mid, version, keep, ok);
    history := TwoParts(site, root, publish, mid, tidying, issued);
  }

  // ----- Build -----

  /** What a build reads from the database. */
  datatype Data = Data(runID: int, base: Base, tenants: seq<Tenant>, attribution: seq<Attribution>, labels: seq<string>)

  datatype BuildError = NoPolicyRun | NoTenants | BadFormat | PublishFailed

  datatype BuildResult = BuildResult(skipped: bool, tenants: nat, categories: nat, entries: nat)

  ghost predicate Renderable(tenants: seq<Tenant>, format: Format) {
    forall t :: t in tenants ==> ValidFormat(FormatFor(t, format))
  }

  ghost function AllFiles(tenants: seq<Tenant>, base: Base, format: Format): seq<OutFile>
    requires Renderable(tenants, format)
  {
    if tenants == [] then []
    else
      var t := tenants[|tenants| - 1];
      AllFiles(tenants[..|tenants| - 1], base, format) + TenantFiles(t, base, FormatFor(t, format))
  }

  /** The entry count a build reports: the default tenant's. */
  ghost function DefaultEntries(tenants: seq<Tenant>, base: Base, format: Format): nat
    requires Renderable(tenants, format)
  {
    if tenants == [] then 0
    else
      var t := tenants[|tenants| - 1];
      if t.isDefault then TotalEntries(t, base, FormatFor(t, format), t.categories)
      else DefaultEntries(tenants[..|tenants| - 1], base, format)
  }

  lemma OneMoreTenant(tenants: seq<Tenant>, base: Base, format: Format, i: nat)
    requires i < |tenants| && Renderable(tenants[..i], format)
    ensures Renderable(tenants, format) ==> ValidFormat(FormatFor(tenants[i], format))
    ensures ValidFormat(FormatFor(tenants[i], format)) ==>
              var t, f := tenants[i], FormatFor(tenants[i], format);
              && Renderable(tenants[..i + 1], format)
              && AllFiles(tenants[..i + 1], base, format) == AllFiles(tenants[..i], base, format) + TenantFiles(t, base, f)
              && DefaultEntries(tenants[..i + 1], base, format) ==
                   if t.isDefault then TotalEntries(t, base, f, t.categories) else DefaultEntries(tenants[..i], base, format)
  {
    assert tenants[i] in tenants;
    assert tenants[..i + 1][..i] == tenants[..i];
    assert tenants[..i + 1] == tenants[..i] + [tenants[i]];
  }

  method RenderAll(tenants: seq<Tenant>, base: Base, format: Format) returns (files: Option<seq<OutFile>>, entries: nat)
    ensures files.Some? <==> Renderable(tenants, format)
    ensures files.Some? ==> files.value == AllFiles(tenants, base, format) && entries == DefaultEntries(tenants, base, format)
  {
    var out: seq<OutFile> := [];
    entries := 0;
    for i := 0 to |tenants|
      invariant Renderable(tenants[..i], format)
      invariant out == AllFiles(tenants[..i], base, format) && entries == DefaultEntries(tenants[..i], base, format)
    {
      OneMoreTenant(tenants, base, format, i);
      var tf, n := BuildTenant(tenants[i], base, format);
      if tf.None? { return None, entries; }
      out := out + tf.value;
      if tenants[i].isDefault { entries := n; }
    }
    assert tenants[..|tenants|] == tenants;
    return Some(out), entries;
  }

  /** The draft a build begins with: its version is made of the time and of the files' digest. */
  function DraftFor(site: Site, data: Data, files: seq<OutFile>, stamp: string, now: string): Draft {
    FirstDraft(VersionFor(stamp, files, site.hex), now, data.attribution)
  }

  /** Compares with what is published and publishes if anything differs. The write order is
      whatever `arrange` makes of the files: the comparator they are sorted with compares slug
      lengths first and is not transitive. */
  method PublishIfChanged(store: Store, data: Data, files: seq<OutFile>, stamp: string, now: string, arrange: seq<OutFile> -> seq<OutFile>)
    returns (same: bool, ok: bool, ghost issued: seq<Call>)
    requires store.disk.Valid()
    modifies store.disk
    ensures store.disk.Valid() && store.disk.calls == old(store.disk.calls) + issued
    ensures MayAnswer(store.site.base, old(store.disk.root), files, same)
    ensures same ==> ok && issued == []
    ensures !same ==> PublishRan(store.site, old(store.disk.root), DraftFor(store.site, data, files, stamp, now),
                                 AsListFiles(arrange(files), data.labels), store.keep, issued, ok)
  {
    same := Unchanged(store, files);
    if same {
      assert store.disk.calls + [] == store.disk.calls;
      return same, true, [];
    }
    var digest := SetDigest(files, store.site.hex);
    var version := NewVersion(stamp, store.site.hex(digest));
    ok, issued := Publish(store, version, now, data.attribution, AsListFiles(arrange(files), data.labels));
  }

  /** What a build answers and what it does to the disk. A build that cannot start, like one of
      unchanged data, touches nothing. */
  ghost predicate BuildOutcome(site: Site, root: Root, keep: nat, data: Data, f: Format, arrange: seq<OutFile> -> seq<OutFile>,
                               stamp: string, now: string, issued: seq<Call>, res: Result<BuildResult, BuildError>) {
    if data.runID == 0 then res == Err(NoPolicyRun) && issued == []
    else if data.tenants == [] then res == Err(NoTenants) && issued == []
    else if !Renderable(data.tenants, f) then res == Err(BadFormat) && issued == []
    else
      var files := AllFiles(data.tenants, data.base, f);
      var skipped := res.Ok? && res.value.skipped;
      && MayAnswer(site.base, root, files, skipped)
      && (res == Err(PublishFailed) || res == Ok(BuildResult(skipped, |data.tenants|, |data.base|, DefaultEntries(data.tenants, data.base, f))))
      && if skipped then issued == []
         else PublishRan(site, root, DraftFor(site, data, files, stamp, now), AsListFiles(arrange(files), data.labels), keep, issued, res.Ok?)
  }

  method Build(store: Store, data: Data, format: Option<Format>, stamp: string, now: string, arrange: seq<OutFile> -> seq<OutFile>)
    returns (res: Result<BuildResult, BuildError>, ghost issued: seq<Call>)
    requires store.disk.Valid()
    modifies store.disk
    ensures store.disk.Valid() && store.disk.calls == old(store.disk.calls) + issued
    ensures BuildOutcome(store.site, old(store.disk.root), store.keep, data, if format.None? then FormatDomain else format.value,
                         arrange, stamp, now, issued, res)
  {
    issued := [];
    assert store.disk.calls + [] == store.disk.calls;
    var f := FormatDomain;
    if format.Some? { f := format.value; }
    if data.runID == 0 { return Err(NoPolicyRun), []; }
    if |data.tenants| == 0 { return Err(NoTenants), []; }
    var files, entries := RenderAll(data.tenants, data.base, f);
    if files.None? { return Err(BadFormat), []; }
    var same, ok;
    same, ok, issued := PublishIfChanged(store, data, files.value, stamp, now, arrange);
    if !ok { return Err(PublishFailed), issued; }
    return Ok(BuildResult(same, |data.tenants|, |data.base|, entries)), issued;
  }
}
