/** internal/snapshot, type Set: a set of files under construction, with content that repeats
    stored once, and its commit. */
module SnapshotSets {
  import opened Names
  import opened Rules
  import opened Rendering
  import opened Disks

  const CURRENT := "current"
  const MANIFEST := "manifest.json"

  /** What stat finds at a path: no directory, one without a manifest, or one with. */
  datatype Found = NotThere | Bare | Manifested

  /** What a store takes from its surroundings: the path of its root, what lies outside of it, and
      how counts and digests are spelled in a header. */
  datatype Site = Site(base: seq<string>, elsewhere: seq<string> -> Found, decimal: nat -> string, hex: Digest -> string)

  /** The fields of a Set. */
  datatype Draft = Draft(
    version: string,
    now: string,
    lists: Lists,
    tenants: map<string, Lists>,
    attribution: seq<Attribution>,
    byChecksum: map<Digest, string>
  )

  datatype SnapError = BadName | BadTenant | BadVersion | AlreadyCommitted | EmptySet | NoSuchVersion | NoManifest | NoCurrent | NotInSet | DiskFailed

  function BuildDir(version: string): string {
    ".building-" + version
  }

  predicate SafeSegment(s: string) {
    s != "" && s != "." && s != ".." && '/' !in s && '\\' !in s
  }

  /** Where a file sits inside its set; the empty tenant is the default one. */
  function RelPath(tenant: string, name: string): string {
    if tenant == "" then name else "t/" + tenant + "/" + name
  }

  function GzipPath(rel: string): string {
    rel + ".gz"
  }

  /** The header a set writes over a file: its own version and time, the body's own numbers. */
  function Stamped(site: Site, d: Draft, h: Header, b: Body): Header {
    h.(version := d.version, generatedAt := d.now, entries := site.decimal(b.entries), checksum := site.hex(b.checksum))
  }

  /** Nothing at all for content already in the set; otherwise the file and its compressed copy. */
  function WritePlan(site: Site, d: Draft, rel: string, h: Header, b: Body): seq<Call> {
    if b.checksum in d.byChecksum then []
    else
      var dir, hdr := BuildDir(d.version), Stamped(site, d, h, b);
      [Create(In(dir, rel)), Fill(In(dir, rel), Stored(hdr, b)),
       Create(In(dir, GzipPath(rel))), Fill(In(dir, GzipPath(rel)), Gzipped(hdr, b))]
  }

  function EntryFor(d: Draft, b: Body): ListEntry {
    ListEntry(b.checksum, b.entries, if b.checksum in d.byChecksum then d.byChecksum[b.checksum] else "")
  }

  function Remembered(d: Draft, rel: string, b: Body): Draft {
    if b.checksum in d.byChecksum then d else d.(byChecksum := d.byChecksum[b.checksum := rel])
  }

  function TenantLists(d: Draft, tenant: string): Lists {
    if tenant in d.tenants then d.tenants[tenant] else map[]
  }

  /** The set after one file was added under its key. */
  function Added(d: Draft, tenant: string, name: string, b: Body): Draft {
    var r, e := Remembered(d, RelPath(tenant, name), b), EntryFor(d, b);
    if tenant == "" then r.(lists := r.lists[name := e])
    else r.(tenants := r.tenants[tenant := TenantLists(r, tenant)[name := e]])
  }

  function ManifestOf(d: Draft): Manifest {
    Manifest(d.version, d.now, d.lists, d.tenants, d.attribution)
  }

  function BeginPlan(version: string): seq<Call> {
    [RemoveAll(BuildDir(version)), MakeDir(BuildDir(version))]
  }

  function ManifestPlan(d: Draft): seq<Call> {
    WriteFilePlan(In(BuildDir(d.version), MANIFEST), ManifestDoc(ManifestOf(d)))
  }

  function InstallPlan(version: string): seq<Call> {
    [RemoveAll(version), RenameDir(BuildDir(version), version)]
  }

  function PointPlan(version: string): seq<Call> {
    WriteFilePlan(Top(CURRENT), CurrentDoc(version))
  }

  function CommitPlan(d: Draft): seq<Call> {
    ManifestPlan(d) + InstallPlan(d.version) + PointPlan(d.version)
  }

  method SetCurrent(disk: Disk, version: string) returns (ok: bool)
    requires disk.Valid()
    modifies disk
    ensures disk.Valid()
    ensures Progressed(old(disk.calls), disk.calls, PointPlan(version), ok)
  {
    ok := disk.WriteFileSync(Top(CURRENT), CurrentDoc(version));
  }

  /** The two directory moves of Commit. */
  method Install(disk: Disk, version: string) returns (ok: bool)
    requires disk.Valid()
    modifies disk
    ensures disk.Valid()
    ensures Progressed(old(disk.calls), disk.calls, InstallPlan(version), ok)
  {
    ghost var first, second := [RemoveAll(version)], [RenameDir(BuildDir(version), version)];
    assert InstallPlan(version) == first + second;
    ok := disk.Issue(RemoveAll(version));
    if !ok {
      StopsShort(old(disk.calls), disk.calls, first, second);
      return;
    }
    ghost var c1 := disk.calls;
    ok := disk.Issue(RenameDir(BuildDir(version), version));
    ThenMore(old(disk.calls), c1, disk.calls, first, second, ok);
  }

  /** Creates a file, writes it, syncs it and closes it. */
  method WriteFile(disk: Disk, p: Path, content: Content) returns (ok: bool)
    requires disk.Valid()
    modifies disk
    ensures disk.Valid()
    ensures Progressed(old(disk.calls), disk.calls, [Create(p), Fill(p, content)], ok)
  {
    ghost var first, second := [Create(p)], [Fill(p, content)];
    assert [Create(p), Fill(p, content)] == first + second;
    ok := disk.Issue(Create(p));
    if !ok {
      StopsShort(old(disk.calls), disk.calls, first, second);
      return;
    }
    ghost var c1 := disk.calls;
    ok := disk.Issue(Fill(p, content));
    ThenMore(old(disk.calls), c1, disk.calls, first, second, ok);
  }

  class SnapshotSet {
    const disk: Disk
    const site: Site
    const version: string
    const now: string
    var lists: Lists
    var tenants: map<string, Lists>
    var attribution: seq<Attribution>
    var byChecksum: map<Digest, string>
    var committed: bool

    ghost function Model(): Draft
      reads this
    {
      Draft(version, now, lists, tenants, attribution, byChecksum)
    }

    constructor (disk: Disk, site: Site, version: string, now: string)
      ensures this.disk == disk && this.site == site && this.version == version && !committed
      ensures Model() == Draft(version, now, map[], map[], [], map[])
    {
      this.disk, this.site, this.version, this.now := disk, site, version, now;
      lists, tenants, attribution, byChecksum, committed := map[], map[], [], map[], false;
    }

    method Attribute(a: Attribution)
      modifies this
      ensures Model() == old(Model()).(attribution := old(attribution) + [a]) && committed == old(committed)
    {
      attribution := attribution + [a];
    }

    /** Writes one file and its compressed copy, unless the same content is in the set. */
    method Write(tenant: string, name: string, h: Header, b: Body) returns (res: Result<ListEntry, SnapError>)
      requires disk.Valid()
      modifies this, disk
      ensures disk.Valid() && committed == old(committed)
      ensures !SafeSegment(name) ==> res == Err(BadName) && disk.calls == old(disk.calls) && Model() == old(Model())
      ensures SafeSegment(name) ==>
        Progressed(old(disk.calls), disk.calls, WritePlan(site, old(Model()), RelPath(tenant, name), h, b), res.Ok?)
      ensures SafeSegment(name) && res.Ok? ==>
        res.value == EntryFor(old(Model()), b) && Model() == Remembered(old(Model()), RelPath(tenant, name), b)
      ensures SafeSegment(name) && res.Err? ==> res.error == DiskFailed && Model() == old(Model())
    {
      if !SafeSegment(name) { return Err(BadName); }
      var rel := RelPath(tenant, name);
      if b.checksum in byChecksum {
        Finished(disk.calls, disk.calls, []);
        return Ok(ListEntry(b.checksum, b.entries, byChecksum[b.checksum]));
      }
      var hdr := h.(version := version, generatedAt := now, entries := site.decimal(b.entries), checksum := site.hex(b.checksum));
      var full, zipped := In(BuildDir(version), rel), In(BuildDir(version), GzipPath(rel));
      ghost var first, second := [Create(full), Fill(full, Stored(hdr, b))], [Create(zipped), Fill(zipped, Gzipped(hdr, b))];
      assert WritePlan(site, Model(), rel, h, b) == first + second;
      var ok := WriteFile(disk, full, Stored(hdr, b));
      if !ok {
        StopsShort(old(disk.calls), disk.calls, first, second);
        return Err(DiskFailed);
      }
      ghost var c1 := disk.calls;
      ok := WriteFile(disk, zipped, Gzipped(hdr, b));
      ThenMore(old(disk.calls), c1, disk.calls, first, second, ok);
      if !ok { return Err(DiskFailed); }
      byChecksum := byChecksum[b.checksum := rel];
      return Ok(ListEntry(b.checksum, b.entries, ""));
    }

    method Add(name: string, h: Header, b: Body) returns (res: Result<ListEntry, SnapError>)
      requires disk.Valid()
      modifies this, disk
      ensures disk.Valid() && committed == old(committed)
      ensures SafeSegment(name) ==> Progressed(old(disk.calls), disk.calls, WritePlan(site, old(Model()), name, h, b), res.Ok?)
      ensures !SafeSegment(name) ==> res == Err(BadName) && disk.calls == old(disk.calls)
      ensures Model() == if res.Ok? then Added(old(Model()), "", name, b) else old(Model())
    {
      res := Write("", name, h, b);
      if res.Ok? { lists := lists[name := res.value]; }
    }

    method AddTenant(slug: string, name: string, h: Header, b: Body) returns (res: Result<ListEntry, SnapError>)
      requires disk.Valid()
      modifies this, disk
      ensures disk.Valid() && committed == old(committed)
      ensures !SafeSegment(slug) ==> res == Err(BadTenant)
      ensures SafeSegment(slug) && !SafeSegment(name) ==> res == Err(BadName)
      ensures SafeSegment(slug) && SafeSegment(name) ==>
        Progressed(old(disk.calls), disk.calls, WritePlan(site, old(Model()), RelPath(slug, name), h, b), res.Ok?)
      ensures !(SafeSegment(slug) && SafeSegment(name)) ==> disk.calls == old(disk.calls)
      ensures Model() == if res.Ok? then Added(old(Model()), slug, name, b) else old(Model())
    {
      if !SafeSegment(slug) { return Err(BadTenant); }
      res := Write(slug, name, h, b);
      if res.Ok? {
        var own := if slug in tenants then tenants[slug] else map[];
        tenants := tenants[slug := own[name := res.value]];
      }
    }

    /** Finishes the set and moves current to it. */
    method Commit() returns (res: Result<Manifest, SnapError>)
      requires disk.Valid()
      modifies this, disk
      ensures disk.Valid() && Model() == old(Model())
      ensures old(committed) ==> res == Err(AlreadyCommitted)
      ensures !old(committed) && old(lists) == map[] ==> res == Err(EmptySet)
      ensures old(committed) || old(lists) == map[] ==> disk.calls == old(disk.calls) && committed == old(committed)
      ensures !old(committed) && old(lists) != map[] ==>
        && Progressed(old(disk.calls), disk.calls, CommitPlan(old(Model())), res.Ok?)
        && committed == res.Ok? && res == if res.Ok? then Ok(ManifestOf(Model())) else Err(DiskFailed)
    {
      if committed { return Err(AlreadyCommitted); }
      if |lists| == 0 { return Err(EmptySet); }
      var m := Manifest(version, now, lists, tenants, attribution);
      ghost var first, second, third := ManifestPlan(Model()), InstallPlan(version), PointPlan(version);
      ghost var c0 := disk.calls;
      var ok := disk.WriteFileSync(In(BuildDir(version), MANIFEST), ManifestDoc(m));
      if !ok {
        StopsShort(c0, disk.calls, first, second);
        StopsShort(c0, disk.calls, first + second, third);
        return Err(DiskFailed);
      }
      ghost var c1 := disk.calls;
      ok := Install(disk, version);
      Advance(c0, c1, disk.calls, first, second, third, ok);
      if !ok { return Err(DiskFailed); }
      ghost var c2 := disk.calls;
      ok := SetCurrent(disk, version);
      ThenMore(c0, c2, disk.calls, first + second, third, ok);
      if !ok { return Err(DiskFailed); }
      committed := true;
      return Ok(m);
    }

    /** Drops a set that was not committed; a second call, or one after Commit, does nothing
        that matters. */
    method Abort() returns (ok: bool)
      requires disk.Valid()
      modifies disk
      ensures disk.Valid()
      ensures committed ==> ok && disk.calls == old(disk.calls)
      ensures !committed ==> Progressed(old(disk.calls), disk.calls, [RemoveAll(BuildDir(version))], ok)
    {
      if committed { return true; }
      ok := disk.Issue(RemoveAll(BuildDir(version)));
    }
  }
}
