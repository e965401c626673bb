/** What is true of the snapshot directory between any two system calls. */
module SnapshotSafety {
  import opened Names
  import opened Rules
  import opened Rendering
  import opened Paths
  import opened Disks
  import opened SnapshotSets
  import opened SnapshotStores
  import opened Dedup

  /** A version name as NewVersion makes them: a plain name, no white space at its ends, and not a
      name the store uses for itself. */
  predicate Ordinary(v: string) {
    PlainName(v) && TrimSpace(v) == v && v !in {CURRENT, CURRENT + ".tmp"} && !HasPrefix(v, ".building-")
  }

  /** Every version directory that has its manifest is complete. */
  ghost predicate VersionsComplete(root: Root) {
    forall v :: Ordinary(v) && CanRollback(root, v) ==> Complete(root[v].files)
  }

  /** The current file is absent, or names a version directory that has its manifest. */
  ghost predicate CurrentGood(root: Root) {
    CURRENT in root ==>
      root[CURRENT].Plain? && root[CURRENT].content.CurrentDoc?
      && Ordinary(root[CURRENT].content.version) && CanRollback(root, root[CURRENT].content.version)
  }

  ghost predicate Safe(root: Root) {
    VersionsComplete(root) && CurrentGood(root)
  }

  /** In a safe directory a reader finds nothing published, or a whole set. */
  lemma SafeMeansReadable(root: Root, tenant: string, name: string)
    requires Safe(root)
    ensures CurrentOf(root).None? || (CanRollback(root, CurrentOf(root).value) && Complete(root[CurrentOf(root).value].files))
    ensures match LookupFile(root, tenant, name)
            case Err(e) => e in {SnapError.NoCurrent, SnapError.NotInSet}
            case Ok(ref) => CurrentOf(root) == Some(ref.version) && Resolves(root[ref.version].files, ref.rel, ref.entry.etag)
  {
    if CURRENT in root {
      var v := root[CURRENT].content.version;
      assert Complete(root[v].files);
    }
  }

  // ----- calls that cannot matter -----

  function TopOf(p: Path): string {
    match p
    case Top(n) => n
    case In(d, _) => d
  }

  function Touches(c: Call): set<string> {
    match c
    case RemoveAll(n) => {n}
    case Unlink(n, _) => {n}
    case MakeDir(n) => {n}
    case Create(p) => {TopOf(p)}
    case Fill(p, _) => {TopOf(p)}
    case Rename(from, to) => {TopOf(from), TopOf(to)}
    case RenameDir(s, t) => {s, t}
  }

  ghost predicate AgreeOutside(a: Root, b: Root, names: set<string>) {
    forall n :: n !in names ==> (n in a <==> n in b) && (n in a && n in b ==> a[n] == b[n])
  }

  lemma DoTouches(root: Root, c: Call)
    ensures AgreeOutside(root, Do(root, c), Touches(c))
  {
  }

  /** Only build directories and the temporary file beside current. */
  predicate Quiet(c: Call) {
    forall n :: n in Touches(c) ==> !Ordinary(n) && n != CURRENT
  }

  lemma QuietKeepsSafe(root: Root, c: Call)
    requires Safe(root) && Quiet(c)
    ensures Safe(Do(root, c)) && CurrentOf(Do(root, c)) == CurrentOf(root)
    ensures CurrentOf(root).Some? ==> CurrentOf(root).value in Do(root, c) && Do(root, c)[CurrentOf(root).value] == root[CurrentOf(root).value]
  {
    var after := Do(root, c);
    DoTouches(root, c);
    assert CURRENT in root <==> CURRENT in after;
    forall v | Ordinary(v) && CanRollback(after, v) ensures Complete(after[v].files) {
      assert v !in Touches(c);
      assert CanRollback(root, v);
    }
    if CURRENT in root { assert root[CURRENT].content.version !in Touches(c); }
  }

  // ----- safe all the way -----

  /** What a reader sees: the current version and its files. */
  ghost function Published(root: Root): Option<(string, Node)> {
    match CurrentOf(root)
    case None => None
    case Some(v) => if v in root then Some((v, root[v])) else None
  }

  ghost predicate SafeAlong(root: Root, calls: seq<Call>) {
    forall n :: 0 <= n <= |calls| ==> Safe(Run(root, calls[..n]))
  }

  /** Up to and including the last of these calls a reader sees what it saw before. */
  ghost predicate UnseenAlong(root: Root, calls: seq<Call>) {
    forall n :: 0 <= n <= |calls| ==> Published(Run(root, calls[..n])) == Published(root)
  }

  lemma AlongConcat(root: Root, a: seq<Call>, b: seq<Call>)
    requires SafeAlong(root, a) && SafeAlong(Run(root, a), b)
    ensures SafeAlong(root, a + b)
    ensures UnseenAlong(root, a) && UnseenAlong(Run(root, a), b) ==> UnseenAlong(root, a + b)
  {
    forall n | 0 <= n <= |a + b|
      ensures Safe(Run(root, (a + b)[..n]))
      ensures UnseenAlong(root, a) && UnseenAlong(Run(root, a), b) ==> Published(Run(root, (a + b)[..n])) == Published(root)
    {
      assert a[..|a|] == a;
      if n <= |a| {
        assert (a + b)[..n] == a[..n];
      } else {
        assert (a + b)[..n] == a + b[..n - |a|];
        RunConcat(root, a, b[..n - |a|]);
      }
    }
  }

  lemma AlongOne(root: Root, c: Call)
    requires Safe(root) && Safe(Do(root, c))
    ensures SafeAlong(root, [c]) && Run(root, [c]) == Do(root, c)
    ensures Published(Do(root, c)) == Published(root) ==> UnseenAlong(root, [c])
  {
    assert [c][..0] == [] && [c][..1] == [c];
    assert Run(root, []) == root;
    assert Run(root, [c]) == Do(root, c);
  }

  lemma AlongNone(root: Root)
    requires Safe(root)
    ensures SafeAlong(root, []) && UnseenAlong(root, [])
  {
    var none: seq<Call> := [];
    assert none[..0] == none;
  }

  lemma {:induction false} QuietAlong(root: Root, calls: seq<Call>)
    requires Safe(root) && forall c :: c in calls ==> Quiet(c)
    ensures SafeAlong(root, calls) && UnseenAlong(root, calls)
    ensures Safe(Run(root, calls)) && Published(Run(root, calls)) == Published(root) && CurrentOf(Run(root, calls)) == CurrentOf(root)
  {
    if calls == [] {
      AlongNone(root);
    } else {
      var front, last := calls[..|calls| - 1], calls[|calls| - 1];
      assert calls == front + [last] && last in calls;
      QuietAlong(root, front);
      var mid := Run(root, front);
      QuietKeepsSafe(mid, last);
      AlongOne(mid, last);
      AlongConcat(root, front, [last]);
      RunConcat(root, front, [last]);
    }
  }

  // ----- the calls that do matter -----

  /** Removing a version directory other than the current one. */
  lemma RemoveOther(root: Root, v: string)
    requires Safe(root) && v != CURRENT && CurrentOf(root) != Some(v)
    ensures Safe(Do(root, RemoveAll(v))) && Published(Do(root, RemoveAll(v))) == Published(root)
    ensures CurrentOf(Do(root, RemoveAll(v))) == CurrentOf(root)
  {
    var after := Do(root, RemoveAll(v));
    forall x | Ordinary(x) && CanRollback(after, x) ensures Complete(after[x].files) { assert CanRollback(root, x); }
  }

  /** Moving a finished build directory into place. */
  lemma InstallBuild(root: Root, v: string, files: map<string, Content>)
    requires Safe(root) && Ordinary(v) && CurrentOf(root) != Some(v) && InBuild(root, v, files) && Complete(files)
    ensures var after := Do(root, RenameDir(BuildDir(v), v));
            Safe(after) && Published(after) == Published(root) && CurrentOf(after) == CurrentOf(root)
            && v in after && after[v] == Dir(files)
  {
    var after := Do(root, RenameDir(BuildDir(v), v));
    assert after[v] == Dir(files);
    forall x | Ordinary(x) && CanRollback(after, x) ensures Complete(after[x].files) {
      if x != v { assert CanRollback(root, x); }
    }
  }

  /** Renaming the filled temporary file over current: the one call that publishes. */
  lemma SwitchCurrent(root: Root, v: string)
    requires Safe(root) && Ordinary(v) && CanRollback(root, v)
    requires ContentAt(root, Top(CURRENT + ".tmp")) == Some(CurrentDoc(v))
    ensures var after := Do(root, Rename(Top(CURRENT + ".tmp"), Top(CURRENT)));
            Safe(after) && Published(after) == Some((v, root[v]))
  {
    var after := Do(root, Rename(Top(CURRENT + ".tmp"), Top(CURRENT)));
    assert after[CURRENT] == Plain(CurrentDoc(v)) && after[v] == root[v];
    forall x | Ordinary(x) && CanRollback(after, x) ensures Complete(after[x].files) { assert CanRollback(root, x); }
  }

  // ----- writing the current file -----

  lemma ThreeCalls(root: Root, a: Call, b: Call, c: Call)
    ensures Run(root, [a, b, c]) == Do(Run(root, [a, b]), c)
    ensures Run(root, [a, b]) == Do(Do(root, a), b)
  {
    assert [a, b, c][..2] == [a, b] && [a, b][..1] == [a] && [a][..0] == [];
    assert Run(root, [a]) == Do(root, a);
  }

  /** setCurrent on a version directory that has its manifest: safe at every point, and unseen
      until its last call. */
  lemma PointAlong(root: Root, v: string)
    requires Safe(root) && Ordinary(v) && CanRollback(root, v)
    ensures SafeAlong(root, PointPlan(v)) && UnseenAlong(root, PointPlan(v)[..2])
    ensures Published(Run(root, PointPlan(v))) == Some((v, root[v])) && Safe(Run(root, PointPlan(v)))
  {
    var tmp, a, b, c := Top(CURRENT + ".tmp"), Create(Top(CURRENT + ".tmp")), Fill(Top(CURRENT + ".tmp"), CurrentDoc(v)), Rename(Top(CURRENT + ".tmp"), Top(CURRENT));
    assert PointPlan(v) == [a, b, c] == [a, b] + [c] && PointPlan(v)[..2] == [a, b];
    QuietAlong(root, [a, b]);
    ThreeCalls(root, a, b, c);
    var mid := Run(root, [a, b]);
    assert ContentAt(mid, tmp) == Some(CurrentDoc(v));
    assert mid[v] == root[v];
    SwitchCurrent(mid, v);
    AlongOne(mid, c);
    AlongConcat(root, [a, b], [c]);
  }
}
