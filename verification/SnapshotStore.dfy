/** internal/snapshot, type Store: opening a set, reading the current one, rollback and pruning. */
module SnapshotStores {
  import opened Names
  import opened Rules
  import opened Sorting
  import opened RuleOrder
  import opened Paths
  import opened Disks
  import opened SnapshotSets

  // ----- reading -----

  /** The version the current file names, white space at its ends dropped. */
  function CurrentOf(root: Root): Option<string> {
    match ContentAt(root, Top(CURRENT))
    case Some(CurrentDoc(v)) => if TrimSpace(v) == "" then None else Some(TrimSpace(v))
    case _ => None
  }

  function ManifestAt(root: Root, version: string): Option<Manifest> {
    match ContentAt(root, In(version, MANIFEST))
    case Some(ManifestDoc(m)) => Some(m)
    case _ => None
  }

  function FindEntry(m: Manifest, tenant: string, name: string): Option<ListEntry> {
    if tenant == "" then Lookup(m.lists, name)
    else if tenant in m.tenants then Lookup(m.tenants[tenant], name)
    else None
  }

  /** The file an entry stands for. */
  function Target(tenant: string, name: string, e: ListEntry): string {
    if e.sameAs != "" then e.sameAs else RelPath(tenant, name)
  }

  datatype FileRef = FileRef(version: string, rel: string, entry: ListEntry)

  /** Lookup reads the current file twice: Manifest sees the directory at one moment, Current at a
      later one. */
  function LookupAcross(first: Root, second: Root, tenant: string, name: string): Result<FileRef, SnapError> {
    match CurrentOf(first)
    case None => Err(SnapError.NoCurrent)
    case Some(v) =>
      match ManifestAt(first, v)
      case None => Err(SnapError.NoManifest)
      case Some(m) =>
        match CurrentOf(second)
        case None => Err(SnapError.NoCurrent)
        case Some(now) =>
          match FindEntry(m, tenant, name)
          case None => Err(SnapError.NotInSet)
          case Some(e) => Ok(FileRef(now, Target(tenant, name, e), e))
  }

  /** A lookup that nothing interrupts. */
  function LookupFile(root: Root, tenant: string, name: string): Result<FileRef, SnapError> {
    LookupAcross(root, root, tenant, name)
  }

  /** The directory a version name leads to. */
  function DirOf(base: seq<string>, version: string): string {
    match EntryOf(base, version)
    case Some(d) => d
    case None => version
  }

  /** A lookup as the code goes about it, for any spelling in the current file. */
  function LookupThrough(base: seq<string>, root: Root, tenant: string, name: string): Result<FileRef, SnapError> {
    match CurrentOf(root)
    case None => Err(SnapError.NoCurrent)
    case Some(v) =>
      match ManifestAt(root, DirOf(base, v))
      case None => Err(SnapError.NoManifest)
      case Some(m) =>
        match FindEntry(m, tenant, name)
        case None => Err(SnapError.NotInSet)
        case Some(e) => Ok(FileRef(DirOf(base, v), Target(tenant, name, e), e))
  }

  lemma PlainDir(base: seq<string>, version: string)
    requires PlainName(version)
    ensures DirOf(base, version) == version
  {
    PlainNameLeadsToItself(base, version);
  }

  predicate IsVersionDir(root: Root, name: string) {
    name in root && root[name].Dir? && !HasPrefix(name, ".building-")
  }

  function VersionNames(root: Root): set<string> {
    set n | n in root && IsVersionDir(root, n)
  }

  predicate Newer(a: string, b: string) {
    Less(b, a)
  }

  lemma NewerIsTotal()
    ensures StrictTotalOrder(Newer)
  {
    NameOrderIsTotal();
    forall a, b ensures Newer(a, b) || a == b || Newer(b, a) { LessTotal(a, b); }
    forall a ensures !Newer(a, a) { LessIrreflexive(a); }
    forall a, b, c | Newer(a, b) && Newer(b, c) ensures Newer(a, c) { LessTransitive(c, b, a); }
  }

  /** The version directories, newest first. */
  ghost function VersionsOf(root: Root): seq<string> {
    Listing(Newer, VersionNames(root))
  }

  // ----- pruning -----

  /** Of the versions from index i on, the ones past the newest `keep` that are not current. */
  function Doomed(versions: seq<string>, i: nat, keep: nat, current: Option<string>): seq<string>
    requires i <= |versions|
  {
    if i == 0 then []
    else
      Doomed(versions, i - 1, keep, current) +
      if i - 1 < keep || current == Some(versions[i - 1]) then [] else [versions[i - 1]]
  }

  ghost function PruneTargets(root: Root, keep: nat): seq<string> {
    Doomed(VersionsOf(root), |VersionsOf(root)|, keep, CurrentOf(root))
  }

  function Removals(targets: seq<string>): seq<Call> {
    seq(|targets|, i requires 0 <= i < |targets| => RemoveAll(targets[i]))
  }

  /** The root has a directory of this name with a manifest in it. */
  predicate CanRollback(root: Root, version: string) {
    version in root && root[version].Dir? && MANIFEST in root[version].files
  }

  function JoinSlash(parts: seq<string>): string {
    if parts == [] then "" else parts[0] + "/" + JoinSlash(parts[1..])
  }

  /** A file at the path, or below it. */
  ghost predicate SomethingAt(files: map<string, Content>, path: string) {
    exists r :: r in files && (r == path || HasPrefix(r, path + "/"))
  }

  /** What lies at a path inside the root, by its components. */
  ghost function FoundInside(root: Root, rel: seq<string>): Found {
    if rel == [] then (if MANIFEST in root then Manifested else Bare)
    else if rel[0] !in root || !root[rel[0]].Dir? then NotThere
    else if |rel| == 1 then (if MANIFEST in root[rel[0]].files then Manifested else Bare)
    else
      var files := root[rel[0]].files;
      if SomethingAt(files, JoinSlash(rel[1..]) + MANIFEST) then Manifested
      else if exists r :: r in files && HasPrefix(r, JoinSlash(rel[1..])) then Bare else NotThere
  }

  /** What Rollback finds under a name. The name is cleaned before it is looked for. */
  ghost function FoundAt(site: Site, root: Root, version: string): Found {
    var p := PathTo(site.base, version);
    if Within(site.base, p) then FoundInside(root, p[|site.base|..]) else site.elsewhere(p)
  }

  ghost predicate Accepts(site: Site, root: Root, version: string) {
    FoundAt(site, root, version) == Manifested
  }

  /** A plain name is accepted exactly when it is that of a directory with a manifest. */
  lemma PlainAccepted(site: Site, root: Root, version: string)
    requires PlainName(version)
    ensures Accepts(site, root, version) <==> CanRollback(root, version)
  {
    PlainNameLeadsToItself(site.base, version);
    assert (site.base + [version])[|site.base|..] == [version];
  }

  lemma EntryAccepted(site: Site, root: Root, version: string)
    requires EntryOf(site.base, version).Some?
    ensures Accepts(site, root, version) <==> CanRollback(root, EntryOf(site.base, version).value)
  {
    var p := PathTo(site.base, version);
    assert p[|site.base|..] == [p[|site.base|]];
  }

  predicate GoodVersion(version: string) {
    version != "" && '/' !in version && '\\' !in version
  }

  class Store {
    const disk: Disk
    const site: Site
    const keep: nat

    constructor (disk: Disk, site: Site, keep: nat)
      requires keep >= 1
      ensures this.disk == disk && this.site == site && this.keep == keep
    {
      this.disk, this.site, this.keep := disk, site, keep;
    }

    /** Opens a set: clears what an earlier failed build left behind and makes the directory. */
    method Begin(version: string, now: string) returns (res: Result<SnapshotSet, SnapError>)
      requires disk.Valid()
      modifies disk
      ensures disk.Valid()
      ensures !GoodVersion(version) ==> res == Err(BadVersion) && disk.calls == old(disk.calls)
      ensures GoodVersion(version) ==> Progressed(old(disk.calls), disk.calls, BeginPlan(version), res.Ok?)
      ensures res.Ok? ==> fresh(res.value) && res.value.disk == disk && res.value.site == site && !res.value.committed
      ensures res.Ok? ==> res.value.Model() == Draft(version, now, map[], map[], [], map[])
    {
      if !GoodVersion(version) { return Err(BadVersion); }
      var dir := BuildDir(version);
      ghost var first, second := [RemoveAll(dir)], [MakeDir(dir)];
      assert BeginPlan(version) == first + second;
      var ok := disk.Issue(RemoveAll(dir));
      if !ok {
        StopsShort(old(disk.calls), disk.calls, first, second);
        return Err(DiskFailed);
      }
      ghost var c1 := disk.calls;
      ok := disk.Issue(MakeDir(dir));
      ThenMore(old(disk.calls), c1, disk.calls, first, second, ok);
      if !ok { return Err(DiskFailed); }
      var set_ := new SnapshotSet(disk, site, version, now);
      return Ok(set_);
    }

    method Lookup(tenant: string, name: string) returns (res: Result<FileRef, SnapError>)
      ensures res == LookupThrough(site.base, disk.root, tenant, name)
    {
      var v := CurrentOf(disk.root);
      if v.None? { return Err(SnapError.NoCurrent); }
      var dir := DirOf(site.base, v.value);
      var m := ManifestAt(disk.root, dir);
      if m.None? { return Err(SnapError.NoManifest); }
      var rel := if tenant == "" then name else "t/" + tenant + "/" + name;
      var entry := FindEntry(m.value, tenant, name);
      if entry.None? { return Err(SnapError.NotInSet); }
      if entry.value.sameAs != "" { rel := entry.value.sameAs; }
      return Ok(FileRef(dir, rel, entry.value));
    }

    /** Reads the directory in any order and sorts. */
    method Versions() returns (out: seq<string>)
      ensures out == VersionsOf(disk.root)
    {
      out := [];
      var todo := disk.root.Keys;
      ghost var done: set<string> := {};
      while todo != {}
        invariant done + todo == disk.root.Keys && done !! todo
        invariant forall n :: n in out <==> n in done && IsVersionDir(disk.root, n)
        invariant NoRepeat(out)
        decreases |todo|
      {
        var n :| n in todo;
        if IsVersionDir(disk.root, n) { out := out + [n]; }
        todo, done := todo - {n}, done + {n};
      }
      ghost var names := out;
      out := Sort(Newer, out);
      SortedNames(disk.root, names);
    }

    lemma SortedNames(root: Root, names: seq<string>)
      requires forall n :: n in names <==> n in VersionNames(root)
      requires NoRepeat(names)
      ensures Sort(Newer, names) == VersionsOf(root)
    {
      NewerIsTotal();
      SortStrict(Newer, names);
      SortMembers(Newer, names);
      ListingUnique(Newer, VersionNames(root), Sort(Newer, names));
    }

    /** Cleans the path and looks for the directory and for the manifest in it. */
    method Stat(version: string) returns (found: Found)
      ensures found == FoundAt(site, disk.root, version)
    {
      var p := PathTo(site.base, version);
      if !Within(site.base, p) { return site.elsewhere(p); }
      var rel := p[|site.base|..];
      if rel == [] { return if MANIFEST in disk.root then Manifested else Bare; }
      if rel[0] !in disk.root || !disk.root[rel[0]].Dir? { return NotThere; }
      var files := disk.root[rel[0]].files;
      if |rel| == 1 { return if MANIFEST in files then Manifested else Bare; }
      var dir := JoinSlash(rel[1..]);
      var path := dir + MANIFEST;
      if exists r :: r in files && (r == path || HasPrefix(r, path + "/")) { return Manifested; }
      return if exists r :: r in files && HasPrefix(r, dir) then Bare else NotThere;
    }

    /** Points current at an older version after checking that it has a manifest. */
    method Rollback(version: string) returns (res: Option<SnapError>)
      requires disk.Valid()
      modifies disk
      ensures disk.Valid()
      ensures match FoundAt(site, old(disk.root), version)
              case NotThere => res == Some(NoSuchVersion) && disk.calls == old(disk.calls)
              case Bare => res == Some(SnapError.NoManifest) && disk.calls == old(disk.calls)
              case Manifested => Progressed(old(disk.calls), disk.calls, PointPlan(version), res.None?)
    {
      var found := Stat(version);
      if found.NotThere? { return Some(NoSuchVersion); }
      if found.Bare? { return Some(SnapError.NoManifest); }
      var ok := SetCurrent(disk, version);
      return if ok then None else Some(DiskFailed);
    }

    /** Removes old versions, one RemoveAll each, and reports the ones removed. */
    method Prune() returns (removed: seq<string>, ok: bool)
      requires disk.Valid()
      modifies disk
      ensures disk.Valid()
      ensures Progressed(old(disk.calls), disk.calls, Removals(PruneTargets(old(disk.root), keep)), ok)
      ensures removed <= PruneTargets(old(disk.root), keep) && (ok ==> removed == PruneTargets(old(disk.root), keep))
    {
      var versions := Versions();
      removed, ok := RemoveOld(versions, CurrentOf(disk.root));
      RemovedSoFar(old(disk.calls), disk.calls, removed, PruneTargets(old(disk.root), keep));
    }

    method RemoveOld(versions: seq<string>, current: Option<string>) returns (removed: seq<string>, ok: bool)
      requires disk.Valid()
      modifies disk
      ensures disk.Valid() && disk.calls == old(disk.calls) + Removals(removed)
      ensures var all := Doomed(versions, |versions|, keep, current);
              removed <= all && (ok <==> removed == all)
    {
      removed := [];
      assert Removals(removed) == [];
      for i := 0 to |versions|
        invariant disk.Valid() && removed == Doomed(versions, i, keep, current)
        invariant disk.calls == old(disk.calls) + Removals(removed)
      {
        DoomedPrefix(versions, i + 1, keep, current);
        if i < keep || current == Some(versions[i]) { continue; }
        ok := RemoveOne(versions[i], old(disk.calls), removed);
        if !ok { return; }
        removed := removed + [versions[i]];
      }
      ok := true;
    }

    method RemoveOne(v: string, ghost before: seq<Call>, ghost removed: seq<string>) returns (ok: bool)
      requires disk.Valid() && disk.calls == before + Removals(removed)
      modifies disk
      ensures disk.Valid()
      ensures ok ==> disk.calls == before + Removals(removed + [v])
      ensures !ok ==> disk.calls == before + Removals(removed)
    {
      RemovalsGrow(before, removed, v);
      ok := disk.Issue(RemoveAll(v));
    }
  }

  lemma RemovedSoFar(before: seq<Call>, after: seq<Call>, removed: seq<string>, all: seq<string>)
    requires after == before + Removals(removed) && removed <= all
    ensures Progressed(before, after, Removals(all), removed == all)
  {
    assert Removals(all)[..|removed|] == Removals(removed);
    assert Reached(before, after, Removals(all), |removed|);
  }

  lemma RemovalsGrow(before: seq<Call>, removed: seq<string>, v: string)
    ensures before + Removals(removed) + [RemoveAll(v)] == before + Removals(removed + [v])
  {
  }

  lemma {:induction false} DoomedPrefix(versions: seq<string>, i: nat, keep: nat, current: Option<string>)
    requires i <= |versions|
    ensures Doomed(versions, i, keep, current) <= Doomed(versions, |versions|, keep, current)
    decreases |versions| - i
  {
    if i < |versions| { DoomedPrefix(versions, i + 1, keep, current); }
  }
}
