/** Which file of a shared content is written and which ones point at it: exactly when the choice
    does not depend on how the files were sorted. */
module Originals {
  import opened Names
  import opened Rules
  import opened Sorting
  import opened Rendering
  import opened Disks
  import opened SnapshotSets
  import opened SnapshotStores
  import opened Dedup
  import opened Builders
  import opened Rebuild
  import opened WriteOrder

  predicate Holds(f: OutFile, c: Digest) {
    f.body.checksum == c
  }

  /** The first file of the list with this content: the one that is written. */
  function FirstHolder(o: seq<OutFile>, c: Digest): Option<OutFile> {
    if o == [] then None
    else
      var front, last := o[..|o| - 1], o[|o| - 1];
      if FirstHolder(front, c).Some? then FirstHolder(front, c) else if Holds(last, c) then Some(last) else None
  }

  lemma {:induction false} FirstHolderAt(o: seq<OutFile>, c: Digest) returns (i: nat)
    requires exists f :: f in o && Holds(f, c)
    ensures i < |o| && FirstHolder(o, c) == Some(o[i]) && Holds(o[i], c)
    ensures forall j :: 0 <= j < i ==> !Holds(o[j], c)
  {
    var front, last := o[..|o| - 1], o[|o| - 1];
    assert o == front + [last];
    if f :| f in front && Holds(f, c) {
      i := FirstHolderAt(front, c);
    } else {
      NoHolder(front, c);
      i := |front|;
      forall j | 0 <= j < i ensures !Holds(o[j], c) { assert front[j] in front; }
    }
  }

  lemma {:induction false} NoHolder(o: seq<OutFile>, c: Digest)
    ensures FirstHolder(o, c).None? <==> forall f :: f in o ==> !Holds(f, c)
  {
    if o != [] {
      var front, last := o[..|o| - 1], o[|o| - 1];
      assert o == front + [last];
      NoHolder(front, c);
    }
  }

  /** In an ordered list no holder comes before the first one. */
  lemma FirstHolderIsLeast(less: (OutFile, OutFile) -> bool, o: seq<OutFile>, c: Digest, h: OutFile) returns (f: OutFile)
    requires Ordered(less, o) && h in o && Holds(h, c) && !less(h, h)
    ensures FirstHolder(o, c) == Some(f) && f in o && Holds(f, c) && !less(h, f)
  {
    var i := FirstHolderAt(o, c);
    f := o[i];
    var j :| 0 <= j < |o| && o[j] == h;
  }

  // ----- when the first holder is settled -----

  predicate Shorter(f: OutFile, g: OutFile) {
    |f.tenant| < |g.tenant|
  }

  ghost predicate HasShorterHolder(files: seq<OutFile>, c: Digest, a: OutFile) {
    exists s :: s in files && Holds(s, c) && Shorter(s, a)
  }

  /** Holders with different slugs of one length are outdone by a holder with a shorter slug; the
      default tenant's slug is the shortest of all. */
  ghost predicate Settled(files: seq<OutFile>, c: Digest) {
    forall a, b :: a in files && b in files && Holds(a, c) && Holds(b, c) && a.tenant != b.tenant && |a.tenant| == |b.tenant| ==>
      HasShorterHolder(files, c, a)
  }

  ghost predicate OneFirstHolder(files: seq<OutFile>, c: Digest) {
    forall o1, o2 :: SortedFiles(files, o1) && SortedFiles(files, o2) ==> FirstHolder(o1, c) == FirstHolder(o2, c)
  }

  lemma NeverBeforeItself(up: bool, a: OutFile)
    ensures !Before(a, a) && !Direction(up)(a, a)
  {
    CmpOpposite(a, a);
    DirectionIsStrict(up);
  }

  lemma SettledHolders(files: seq<OutFile>, c: Digest, x: OutFile, y: OutFile)
    requires OneFilePerKey(files) && Settled(files, c) && x in files && y in files && Holds(x, c) && Holds(y, c)
    requires forall h :: h in files && Holds(h, c) ==> !Before(h, x) && !Before(h, y)
    ensures x == y
  {
    CmpOpposite(x, y);
    if x.tenant != y.tenant && |x.tenant| == |y.tenant| {
      var s :| s in files && Holds(s, c) && Shorter(s, x);
      assert Before(s, x);
    } else {
      TiedFilesShareAKey(x, y);
    }
  }

  lemma LeastHolder(files: seq<OutFile>, o: seq<OutFile>, c: Digest, some: OutFile) returns (f: OutFile)
    requires SortedFiles(files, o) && some in files && Holds(some, c)
    ensures FirstHolder(o, c) == Some(f) && f in files && Holds(f, c)
    ensures forall h :: h in files && Holds(h, c) ==> !Before(h, f)
  {
    SameMembers(files, o);
    NeverBeforeItself(true, some);
    f := FirstHolderIsLeast(Before, o, c, some);
    forall h | h in files && Holds(h, c) ensures !Before(h, f) {
      NeverBeforeItself(true, h);
      var g := FirstHolderIsLeast(Before, o, c, h);
    }
  }

  lemma SettledMeansOne(files: seq<OutFile>, c: Digest, o1: seq<OutFile>, o2: seq<OutFile>)
    requires OneFilePerKey(files) && Settled(files, c) && SortedFiles(files, o1) && SortedFiles(files, o2)
    ensures FirstHolder(o1, c) == FirstHolder(o2, c)
  {
    if some :| some in files && Holds(some, c) {
      var x := LeastHolder(files, o1, c, some);
      var y := LeastHolder(files, o2, c, some);
      SettledHolders(files, c, x, y);
    } else {
      SameMembers(files, o1);
      SameMembers(files, o2);
      NoHolder(o1, c);
      NoHolder(o2, c);
    }
  }

  /** Sorted one way, the first holder has the least slug of those of the shortest length. */
  lemma FirstHolderInDirection(up: bool, files: seq<OutFile>, c: Digest, h: OutFile) returns (f: OutFile)
    requires h in files && Holds(h, c)
    ensures FirstHolder(Arranged(up, files), c) == Some(f) && f in files && Holds(f, c) && !SlugBefore(up, h.tenant, f.tenant)
  {
    ArrangedIsSorted(up, files);
    SameMembers(files, Arranged(up, files));
    NeverBeforeItself(up, h);
    f := FirstHolderIsLeast(Direction(up), Arranged(up, files), c, h);
    assert !KeyBefore(up, h, f);
  }

  lemma UnsettledMeansTwo(files: seq<OutFile>, c: Digest, a: OutFile, b: OutFile)
    requires a in files && b in files && Holds(a, c) && Holds(b, c) && a.tenant != b.tenant && |a.tenant| == |b.tenant|
    requires !HasShorterHolder(files, c, a)
    ensures FirstHolder(Arranged(true, files), c) != FirstHolder(Arranged(false, files), c)
  {
    var x := FirstHolderInDirection(true, files, c, a);
    var x' := FirstHolderInDirection(true, files, c, b);
    var y := FirstHolderInDirection(false, files, c, a);
    var y' := FirstHolderInDirection(false, files, c, b);
    assert !Shorter(x, a) && !Shorter(y, a);
    LessTotal(a.tenant, x.tenant);
    LessTotal(b.tenant, x.tenant);
  }

  /** Which file of a content is written, exactly: the same one however the files are sorted if
      and only if no two holders have different slugs of one length, unless another holder has a
      shorter slug. */
  lemma OneFirstHolderIff(files: seq<OutFile>, c: Digest)
    requires OneFilePerKey(files)
    ensures OneFirstHolder(files, c) <==> Settled(files, c)
  {
    if Settled(files, c) {
      forall o1, o2 | SortedFiles(files, o1) && SortedFiles(files, o2) ensures FirstHolder(o1, c) == FirstHolder(o2, c) {
        SettledMeansOne(files, c, o1, o2);
      }
    } else {
      var a, b :| a in files && b in files && Holds(a, c) && Holds(b, c) && a.tenant != b.tenant && |a.tenant| == |b.tenant|
                  && !HasShorterHolder(files, c, a);
      UnsettledMeansTwo(files, c, a, b);
      ArrangedIsSorted(true, files);
      ArrangedIsSorted(false, files);
    }
  }

  /** Content that the default tenant has too is always settled, whatever the slugs are. */
  lemma DefaultContentIsSettled(files: seq<OutFile>, f: OutFile)
    requires f in files && f.tenant == ""
    ensures Settled(files, f.body.checksum)
  {
    forall a, b | a in files && b in files && Holds(a, f.body.checksum) && Holds(b, f.body.checksum)
                  && a.tenant != b.tenant && |a.tenant| == |b.tenant|
      ensures HasShorterHolder(files, f.body.checksum, a)
    {
      assert Holds(f, f.body.checksum);
      assert |a.tenant| > 0 ==> Shorter(f, a);
    }
  }

  // ----- what the manifest then says -----

  function PathIn(f: OutFile): string {
    RelPath(f.tenant, f.name)
  }

  lemma ListsSnoc(front: seq<OutFile>, last: OutFile, labels: seq<string>)
    ensures AsListFiles(front + [last], labels) == AsListFiles(front, labels) + [AsListFile(last, labels)]
  {
  }

  function DraftOf(d: Draft, o: seq<OutFile>, labels: seq<string>): Draft {
    DraftAfter(d, AsListFiles(o, labels))
  }

  lemma DraftSnoc(d: Draft, front: seq<OutFile>, last: OutFile, labels: seq<string>)
    ensures DraftOf(d, front + [last], labels) == Added(DraftOf(d, front, labels), last.tenant, last.name, last.body)
  {
    var lists := AsListFiles(front + [last], labels);
    ListsSnoc(front, last, labels);
    assert lists[..|lists| - 1] == AsListFiles(front, labels);
  }

  /** A set remembers for each content the path of its first holder. */
  lemma {:induction false} RemembersFirstHolder(d: Draft, o: seq<OutFile>, labels: seq<string>, c: Digest)
    requires Empty(d)
    ensures Lookup(DraftOf(d, o, labels).byChecksum, c) == match FirstHolder(o, c) case None => None case Some(f) => Some(PathIn(f))
  {
    if o != [] {
      var front, last := o[..|o| - 1], o[|o| - 1];
      assert o == front + [last];
      RemembersFirstHolder(d, front, labels, c);
      RemembersFirstHolder(d, front, labels, last.body.checksum);
      DraftSnoc(d, front, last, labels);
      AddedRemembers(DraftOf(d, front, labels), AsListFile(last, labels));
    }
  }

  /** The entry of a file: its own content, pointing at the first holder unless it is that. */
  function EntryIn(o: seq<OutFile>, f: OutFile): ListEntry {
    var first := FirstHolder(o, f.body.checksum);
    ListEntry(f.body.checksum, f.body.entries, if first.Some? && first != Some(f) then PathIn(first.value) else "")
  }

  lemma OtherKeys(front: seq<OutFile>, last: OutFile)
    requires DistinctKeys(front + [last])
    ensures DistinctKeys(front) && last !in front
    ensures forall f :: f in front ==> f.tenant != last.tenant || f.name != last.name
  {
    DistinctInit(front, last, Key);
  }

  lemma NewestEntry(d: Draft, front: seq<OutFile>, last: OutFile, labels: seq<string>)
    requires Empty(d) && last !in front
    ensures EntryFor(DraftOf(d, front, labels), last.body) == EntryIn(front + [last], last)
  {
    var o, c := front + [last], last.body.checksum;
    assert o[..|o| - 1] == front;
    RemembersFirstHolder(d, front, labels, c);
    if FirstHolder(front, c).Some? { FirstIsMember(front, c); }
  }

  lemma FirstIsMember(o: seq<OutFile>, c: Digest)
    requires FirstHolder(o, c).Some?
    ensures FirstHolder(o, c).value in o
  {
    NoHolder(o, c);
    var i := FirstHolderAt(o, c);
  }

  lemma EntryStays(front: seq<OutFile>, last: OutFile, f: OutFile)
    requires f in front
    ensures EntryIn(front + [last], f) == EntryIn(front, f)
  {
    var o, c := front + [last], f.body.checksum;
    assert o[..|o| - 1] == front;
    NoHolder(front, c);
    assert Holds(f, c);
  }

  /** The entry that every file gets, in closed form. */
  lemma {:induction false} EntryOfFile(d: Draft, o: seq<OutFile>, labels: seq<string>, f: OutFile)
    requires Empty(d) && DistinctKeys(o) && f in o
    ensures FindEntry(ManifestOf(DraftOf(d, o, labels)), f.tenant, f.name) == Some(EntryIn(o, f))
  {
    var front, last := o[..|o| - 1], o[|o| - 1];
    assert o == front + [last];
    OtherKeys(front, last);
    DraftSnoc(d, front, last, labels);
    EntryAfter(DraftOf(d, front, labels), AsListFile(last, labels), f.tenant, f.name);
    if f in front {
      EntryOfFile(d, front, labels, f);
      EntryStays(front, last, f);
    } else {
      NewestEntry(d, front, last, labels);
    }
  }

  ghost predicate SameEntries(m1: Manifest, m2: Manifest) {
    forall t, n :: FindEntry(m1, t, n) == FindEntry(m2, t, n)
  }

  /** Every entry of the manifest is the same however the files are sorted. */
  ghost predicate OneManifest(d: Draft, files: seq<OutFile>, labels: seq<string>) {
    forall o1, o2 :: SortedFiles(files, o1) && SortedFiles(files, o2) ==>
      SameEntries(ManifestOf(DraftOf(d, o1, labels)), ManifestOf(DraftOf(d, o2, labels)))
  }

  lemma OwnKeysOnly(d: Draft, o: seq<OutFile>, labels: seq<string>, t: string, n: string)
    requires Empty(d) && FindEntry(ManifestOf(DraftOf(d, o, labels)), t, n).Some?
    ensures exists f :: f in o && f.tenant == t && f.name == n
  {
    var all := AsListFiles(o, labels);
    OnlyAddedKeys(d, all);
    var g :| g in all && g.tenant == t && g.name == n;
    var f := OutFileAt(o, labels, g);
  }

  lemma SameFirstHoldersSameEntry(d: Draft, o1: seq<OutFile>, o2: seq<OutFile>, labels: seq<string>, t: string, n: string)
    requires Empty(d) && DistinctKeys(o1) && DistinctKeys(o2) && forall f :: f in o1 <==> f in o2
    requires forall c :: FirstHolder(o1, c) == FirstHolder(o2, c)
    ensures FindEntry(ManifestOf(DraftOf(d, o1, labels)), t, n) == FindEntry(ManifestOf(DraftOf(d, o2, labels)), t, n)
  {
    if f :| f in o1 && f.tenant == t && f.name == n {
      EntryOfFile(d, o1, labels, f);
      EntryOfFile(d, o2, labels, f);
    } else {
      if FindEntry(ManifestOf(DraftOf(d, o1, labels)), t, n).Some? { OwnKeysOnly(d, o1, labels, t, n); }
      if FindEntry(ManifestOf(DraftOf(d, o2, labels)), t, n).Some? { OwnKeysOnly(d, o2, labels, t, n); }
    }
  }

  lemma SortedKeysDiffer(files: seq<OutFile>, o: seq<OutFile>)
    requires SafeFiles(files) && DistinctKeys(files) && SortedFiles(files, o)
    ensures SafeFiles(o) && DistinctKeys(o) && forall f :: f in o <==> f in files
  {
    PermutedKeys(files, o);
    SameMembers(files, o);
  }

  lemma DistinctIsOnePerKey(files: seq<OutFile>)
    requires DistinctKeys(files)
    ensures OneFilePerKey(files)
  {
    forall a, b | a in files && b in files && a.tenant == b.tenant && a.name == b.name ensures a == b {
      var i :| 0 <= i < |files| && files[i] == a;
      var j :| 0 <= j < |files| && files[j] == b;
      assert Key(files[i]) == Key(files[j]);
    }
  }

  /** The entry of one first holder tells it from another. */
  lemma OtherFirstOtherEntry(o1: seq<OutFile>, o2: seq<OutFile>, x: OutFile, y: OutFile)
    requires FirstHolder(o1, x.body.checksum) == Some(x) && FirstHolder(o2, x.body.checksum) == Some(y)
    requires x != y && SafeKey(y.tenant, y.name)
    ensures EntryIn(o1, x) != EntryIn(o2, x)
  {
    assert PathIn(y) != "";
  }

  lemma TwoFirstsTwoManifests(d: Draft, files: seq<OutFile>, labels: seq<string>, c: Digest, o1: seq<OutFile>, o2: seq<OutFile>)
    requires Empty(d) && SafeFiles(files) && DistinctKeys(files) && SortedFiles(files, o1) && SortedFiles(files, o2)
    requires FirstHolder(o1, c) != FirstHolder(o2, c)
    ensures !SameEntries(ManifestOf(DraftOf(d, o1, labels)), ManifestOf(DraftOf(d, o2, labels)))
  {
    SortedKeysDiffer(files, o1);
    SortedKeysDiffer(files, o2);
    NoHolder(o1, c);
    NoHolder(o2, c);
    var i := FirstHolderAt(o1, c);
    var j := FirstHolderAt(o2, c);
    var x, y := o1[i], o2[j];
    assert x in o1 && y in o2;
    EntryOfFile(d, o1, labels, x);
    EntryOfFile(d, o2, labels, x);
    OtherFirstOtherEntry(o1, o2, x, y);
  }

  /** The promise that every SameAs points at the same original, exactly: the manifest is a
      function of the files, however they were sorted, if and only if every content is settled. */
  lemma OneManifestIff(d: Draft, files: seq<OutFile>, labels: seq<string>)
    requires Empty(d) && SafeFiles(files) && DistinctKeys(files)
    ensures OneManifest(d, files, labels) <==> forall c :: Settled(files, c)
  {
    DistinctIsOnePerKey(files);
    if forall c :: Settled(files, c) {
      forall o1, o2 | SortedFiles(files, o1) && SortedFiles(files, o2)
        ensures SameEntries(ManifestOf(DraftOf(d, o1, labels)), ManifestOf(DraftOf(d, o2, labels)))
      {
        SortedKeysDiffer(files, o1);
        SortedKeysDiffer(files, o2);
        forall c ensures FirstHolder(o1, c) == FirstHolder(o2, c) { SettledMeansOne(files, c, o1, o2); }
        forall t, n ensures FindEntry(ManifestOf(DraftOf(d, o1, labels)), t, n) == FindEntry(ManifestOf(DraftOf(d, o2, labels)), t, n) {
          SameFirstHoldersSameEntry(d, o1, o2, labels, t, n);
        }
      }
    } else {
      var c :| !Settled(files, c);
      OneFirstHolderIff(files, c);
      var o1, o2 :| SortedFiles(files, o1) && SortedFiles(files, o2) && FirstHolder(o1, c) != FirstHolder(o2, c);
      TwoFirstsTwoManifests(d, files, labels, c, o1, o2);
    }
  }

  // ----- two arrangements -----

  lemma EntriesOfTwo(d: Draft, s: string, t: string, b: Body, labels: seq<string>)
    requires Empty(d) && s != t && s != "" && t != ""
    ensures var m := ManifestOf(DraftOf(d, [OutFile(s, ALL, b), OutFile(t, ALL, b)], labels));
            && FindEntry(m, s, ALL) == Some(ListEntry(b.checksum, b.entries, ""))
            && FindEntry(m, t, ALL) == Some(ListEntry(b.checksum, b.entries, RelPath(s, ALL)))
  {
    var x, y := OutFile(s, ALL, b), OutFile(t, ALL, b);
    var one := Added(d, s, ALL, b);
    assert [x] + [y] == [x, y] && [] + [x] == [x];
    DraftSnoc(d, [], x, labels);
    DraftSnoc(d, [x], y, labels);
    assert DraftOf(d, [], labels) == d;
    AddedRemembers(d, AsListFile(x, labels));
    EntryAfter(d, AsListFile(x, labels), s, ALL);
    EntryAfter(one, AsListFile(y, labels), s, ALL);
    EntryAfter(one, AsListFile(y, labels), t, ALL);
  }

  lemma TiedPair(x: OutFile, y: OutFile)
    requires Tied(x, y)
    ensures SortedFiles([x, y], [x, y]) && SortedFiles([x, y], [y, x])
  {
    CmpOpposite(x, y);
    assert multiset([x, y]) == multiset([y, x]);
  }

  /** Two tenants of one slug length, say aa and bb, with one content: both orders pass, and in
      either the other tenant's file is the original. */
  lemma TwoArrangements(d: Draft, s: string, t: string, b: Body, labels: seq<string>)
    requires Empty(d) && |s| == |t| && s != t
    ensures var x, y := OutFile(s, ALL, b), OutFile(t, ALL, b);
            var m1, m2 := ManifestOf(DraftOf(d, [x, y], labels)), ManifestOf(DraftOf(d, [y, x], labels));
            && SortedFiles([x, y], [x, y]) && SortedFiles([x, y], [y, x])
            && FindEntry(m1, t, ALL) == Some(ListEntry(b.checksum, b.entries, RelPath(s, ALL)))
            && FindEntry(m2, t, ALL) == Some(ListEntry(b.checksum, b.entries, ""))
            && FindEntry(m2, s, ALL) == Some(ListEntry(b.checksum, b.entries, RelPath(t, ALL)))
            && FindEntry(m1, s, ALL) == Some(ListEntry(b.checksum, b.entries, ""))
  {
    EntriesOfTwo(d, s, t, b, labels);
    EntriesOfTwo(d, t, s, b, labels);
    TiedPair(OutFile(s, ALL, b), OutFile(t, ALL, b));
  }
}
