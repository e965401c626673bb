/** internal/builder, setDigest: the digest that names a version, and why a build that has
    something new to publish never reuses the published version's name. */
module SetDigests {
  import opened Names
  import opened Rules
  import opened Sorting
  import opened RuleOrder
  import opened Disks
  import opened SnapshotSets
  import opened SnapshotStores
  import opened Dedup
  import opened SnapshotSafety
  import opened SnapshotRuns
  import opened Builders
  import opened Rebuild

  type Hex = Digest -> string

  /** What is hashed: each key and its checksum, a NUL after either. */
  function DigestText(keys: seq<string>, sums: map<string, Digest>, hex: Hex): string {
    if keys == [] then ""
    else
      var sum := if keys[0] in sums then hex(sums[keys[0]]) else "";
      keys[0] + "\0" + sum + "\0" + DigestText(keys[1..], sums, hex)
  }

  function FileKeys(files: seq<OutFile>): seq<string> {
    seq(|files|, i requires 0 <= i < |files| => Key(files[i]))
  }

  function SetDigestOf(files: seq<OutFile>, hex: Hex): Digest {
    Sha256(DigestText(Sort(Less, FileKeys(files)), KeyMap(files), hex))
  }

  lemma {:induction false} DigestTextSplit(a: seq<string>, b: seq<string>, sums: map<string, Digest>, hex: Hex)
    ensures DigestText(a + b, sums, hex) == DigestText(a, sums, hex) + DigestText(b, sums, hex)
  {
    if a == [] {
      assert a + b == b;
    } else {
      assert (a + b)[1..] == a[1..] + b;
      DigestTextSplit(a[1..], b, sums, hex);
    }
  }

  /** The keys and the sums are gathered in one loop, sorted, and written in another. */
  method SetDigest(files: seq<OutFile>, hex: Hex) returns (d: Digest)
    ensures d == SetDigestOf(files, hex)
  {
    var keys: seq<string>, sums: map<string, Digest> := [], map[];
    for i := 0 to |files|
      invariant keys == FileKeys(files[..i]) && sums == KeyMap(files[..i])
    {
      assert files[..i + 1][..i] == files[..i];
      keys := keys + [Key(files[i])];
      sums := sums[Key(files[i]) := files[i].body.checksum];
    }
    assert files[..|files|] == files;
    keys := Sort(Less, keys);
    var text := "";
    for i := 0 to |keys|
      invariant text == DigestText(keys[..i], sums, hex)
    {
      var sum := if keys[i] in sums then hex(sums[keys[i]]) else "";
      WriteOne(keys, i, sums, hex);
      text := text + keys[i] + "\0" + sum + "\0";
    }
    assert keys[..|keys|] == keys;
    return Sha256(text);
  }

  lemma WriteOne(keys: seq<string>, i: nat, sums: map<string, Digest>, hex: Hex)
    requires i < |keys|
    ensures var sum := if keys[i] in sums then hex(sums[keys[i]]) else "";
            DigestText(keys[..i + 1], sums, hex) == DigestText(keys[..i], sums, hex) + keys[i] + "\0" + sum + "\0"
  {
    var k := [keys[i]];
    var sum := if keys[i] in sums then hex(sums[keys[i]]) else "";
    assert keys[..i + 1] == keys[..i] + k;
    DigestTextSplit(keys[..i], k, sums, hex);
    assert k[1..] == [] && DigestText([], sums, hex) == "";
    assert DigestText(k, sums, hex) == keys[i] + "\0" + sum + "\0" + "";
  }

  // ----- the digest tells the table -----

  /** Hexadecimal digits, perhaps after the name of the hash and a colon. */
  predicate HexText(s: string) {
    forall c :: c in s ==> '0' <= c <= '9' || 'a' <= c <= 'f' || c in "sh:"
  }

  /** A spelling of digests that loses nothing. */
  ghost predicate GoodHex(hex: Hex) {
    (forall d :: HexText(hex(d))) && forall a, b :: hex(a) == hex(b) ==> a == b
  }

  ghost predicate NulFree(keys: seq<string>) {
    forall k :: k in keys ==> '\0' !in k
  }

  lemma NulPosition(a: string, x: string, b: string, y: string)
    requires '\0' !in a && '\0' !in b && a + "\0" + x == b + "\0" + y
    ensures a == b && x == y
  {
    var s := a + "\0" + x;
    assert s[|a|] == '\0' && s[|b|] == '\0';
    assert forall i :: 0 <= i < |a| ==> s[i] == a[i] && a[i] in a;
    assert forall i :: 0 <= i < |b| ==> s[i] == b[i] && b[i] in b;
    assert s[..|a|] == a && s[..|b|] == b;
    assert s[|a| + 1..] == x && s[|b| + 1..] == y;
  }

  ghost predicate AllIn(keys: seq<string>, sums: map<string, Digest>) {
    forall k :: k in keys ==> k in sums
  }

  lemma HeadOfText(keys: seq<string>, sums: map<string, Digest>, hex: Hex)
    requires keys != [] && AllIn(keys, sums)
    ensures DigestText(keys, sums, hex) == keys[0] + "\0" + (hex(sums[keys[0]]) + "\0" + DigestText(keys[1..], sums, hex))
  {
    assert keys[0] in keys;
    var h, rest := hex(sums[keys[0]]), DigestText(keys[1..], sums, hex);
    Associate(keys[0], h, rest);
  }

  lemma Associate(k: string, h: string, rest: string)
    ensures k + "\0" + h + "\0" + rest == k + "\0" + (h + "\0" + rest)
  {
  }

  lemma {:induction false} TextTellsTable(k1: seq<string>, m1: map<string, Digest>, k2: seq<string>, m2: map<string, Digest>, hex: Hex)
    requires GoodHex(hex) && NulFree(k1) && NulFree(k2) && AllIn(k1, m1) && AllIn(k2, m2)
    requires DigestText(k1, m1, hex) == DigestText(k2, m2, hex)
    ensures k1 == k2 && forall k :: k in k1 ==> m1[k] == m2[k]
  {
    if k1 != [] { HeadOfText(k1, m1, hex); }
    if k2 != [] { HeadOfText(k2, m2, hex); }
    if k1 != [] && k2 != [] {
      var r1, r2 := DigestText(k1[1..], m1, hex), DigestText(k2[1..], m2, hex);
      var h1, h2 := hex(m1[k1[0]]), hex(m2[k2[0]]);
      assert k1[0] in k1 && k2[0] in k2;
      assert HexText(h1) && HexText(h2);
      NulPosition(k1[0], h1 + "\0" + r1, k2[0], h2 + "\0" + r2);
      NulPosition(h1, r1, h2, r2);
      TextTellsTable(k1[1..], m1, k2[1..], m2, hex);
      assert k1 == [k1[0]] + k1[1..] && k2 == [k2[0]] + k2[1..];
    }
  }

  ghost function TableDigest(table: map<string, Digest>, hex: Hex): Digest {
    Sha256(DigestText(Listing(Less, table.Keys), table, hex))
  }

  ghost predicate NulFreeTable(table: map<string, Digest>) {
    forall k :: k in table ==> '\0' !in k
  }

  lemma ListedKeys(table: map<string, Digest>)
    ensures forall k :: k in Listing(Less, table.Keys) <==> k in table
  {
    NameOrderIsTotal();
    ListingIsSorted(Less, table.Keys);
  }

  /** Tables with one digest are one table. */
  lemma TableDigestInjective(a: map<string, Digest>, b: map<string, Digest>, hex: Hex)
    requires GoodHex(hex) && NulFreeTable(a) && NulFreeTable(b) && TableDigest(a, hex) == TableDigest(b, hex)
    ensures a == b
  {
    ListedKeys(a);
    ListedKeys(b);
    TextTellsTable(Listing(Less, a.Keys), a, Listing(Less, b.Keys), b, hex);
    forall k | k in a || k in b ensures Lookup(a, k) == Lookup(b, k) { }
    SameLookups(a, b);
  }

  lemma KeyListed(files: seq<OutFile>, k: string)
    requires DistinctKeys(files)
    ensures k in FileKeys(files) <==> k in KeyMap(files)
  {
    var keys := FileKeys(files);
    KeyMapFacts(files);
    if k in keys {
      var i :| 0 <= i < |keys| && keys[i] == k;
      assert files[i] in files;
    }
    if k in KeyMap(files) {
      var f :| f in files && Key(f) == k;
      var i :| 0 <= i < |files| && files[i] == f;
      assert keys[i] == k;
    }
  }

  lemma KeyListSorted(files: seq<OutFile>)
    requires DistinctKeys(files)
    ensures Sort(Less, FileKeys(files)) == Listing(Less, KeyMap(files).Keys)
  {
    var keys := FileKeys(files);
    var t := Sort(Less, keys);
    NameOrderIsTotal();
    assert NoRepeat(keys);
    SortStrict(Less, keys);
    forall k ensures k in t <==> k in KeyMap(files) {
      SortMembers(Less, keys);
      KeyListed(files, k);
    }
    ListingUnique(Less, KeyMap(files).Keys, t);
  }

  lemma SetDigestIsTableDigest(files: seq<OutFile>, hex: Hex)
    requires DistinctKeys(files)
    ensures SetDigestOf(files, hex) == TableDigest(KeyMap(files), hex)
  {
    KeyListSorted(files);
  }

  // ----- versions -----

  /** The part of a digest that a version name keeps. */
  function Tail(digest: string): string {
    var bare := TrimPrefix(digest, "sha256:");
    if |bare| > 8 then bare[..8] else bare
  }

  function NewVersion(stamp: string, digest: string): string {
    stamp + "-" + Tail(digest)
  }

  /** A time to the second, as 2006-01-02T15-04-05Z. */
  predicate IsStamp(s: string) {
    |s| == 20 && '0' <= s[0] <= '9' && forall c :: c in s ==> '0' <= c <= '9' || c in "-TZ"
  }

  /** Two names are one exactly when the seconds and the first eight digits of the digests are. */
  lemma NewVersionIff(s1: string, d1: string, s2: string, d2: string)
    requires IsStamp(s1) && IsStamp(s2)
    ensures NewVersion(s1, d1) == NewVersion(s2, d2) <==> s1 == s2 && Tail(d1) == Tail(d2)
  {
    var v1, v2 := NewVersion(s1, d1), NewVersion(s2, d2);
    assert v1[..20] == s1 && v2[..20] == s2;
    assert v1[21..] == Tail(d1) && v2[21..] == Tail(d2);
  }

  lemma TailOfHex(digest: string)
    requires HexText(digest)
    ensures HexText(Tail(digest))
  {
    var bare := TrimPrefix(digest, "sha256:");
    assert forall c :: c in bare ==> c in digest;
    assert forall c :: c in Tail(digest) ==> c in bare;
  }

  lemma NewVersionIsOrdinary(stamp: string, digest: string)
    requires IsStamp(stamp) && HexText(digest)
    ensures Ordinary(NewVersion(stamp, digest))
  {
    var v := NewVersion(stamp, digest);
    TailOfHex(digest);
    assert v[0] == stamp[0] && |v| >= 21;
    assert ".building-"[0] == '.' && CURRENT[0] == 'c' && (CURRENT + ".tmp")[0] == 'c';
    forall c | c in v ensures c != '/' && !IsSpace(c) { assert c in stamp || c == '-' || c in Tail(digest); }
    NothingTrimmed(v);
    assert v[0] in v && v[|v| - 1] in v;
  }

  function VersionFor(stamp: string, files: seq<OutFile>, hex: Hex): string {
    NewVersion(stamp, hex(SetDigestOf(files, hex)))
  }

  /** Two different tables whose digests share eight digits: within one second they get one name. */
  lemma SameSecondSameName(a: seq<OutFile>, b: seq<OutFile>, hex: Hex, stamp: string)
    requires GoodHex(hex) && DistinctKeys(a) && DistinctKeys(b) && NulFreeTable(KeyMap(a)) && NulFreeTable(KeyMap(b))
    requires KeyMap(a) != KeyMap(b) && Tail(hex(SetDigestOf(a, hex))) == Tail(hex(SetDigestOf(b, hex)))
    ensures SetDigestOf(a, hex) != SetDigestOf(b, hex) && VersionFor(stamp, a, hex) == VersionFor(stamp, b, hex)
  {
    SetDigestIsTableDigest(a, hex);
    SetDigestIsTableDigest(b, hex);
    if SetDigestOf(a, hex) == SetDigestOf(b, hex) { TableDigestInjective(KeyMap(a), KeyMap(b), hex); }
  }

  /** A manifest of version v says what v is named after. */
  ghost predicate NamedAfter(m: Manifest, v: string, stamp: string, hex: Hex) {
    && IsStamp(stamp) && SafeManifest(m) && NulFreeTable(PublishedETags(m))
    && v == NewVersion(stamp, hex(TableDigest(PublishedETags(m), hex)))
  }

  /** The files of a version directory that is named after its own content. */
  ghost predicate NamedFiles(files: map<string, Content>, v: string, hex: Hex) {
    MANIFEST in files && files[MANIFEST].ManifestDoc? && exists stamp :: NamedAfter(files[MANIFEST].manifest, v, stamp, hex)
  }

  /** The table of what is published. */
  ghost function ShownTable(root: Root): Option<map<string, Digest>>
    requires ReadableManifest(root)
  {
    if CurrentOf(root).Some? && ManifestAt(root, CurrentOf(root).value).Some?
    then Some(PublishedETags(ManifestAt(root, CurrentOf(root).value).value)) else None
  }

  /** The published version is named after its own table, at some second. */
  ghost predicate NamedAt(root: Root, stamp: string, hex: Hex) {
    && CurrentOf(root).Some? && ManifestAt(root, CurrentOf(root).value).Some?
    && NamedAfter(ManifestAt(root, CurrentOf(root).value).value, CurrentOf(root).value, stamp, hex)
  }

  /** A build with something new to publish has another digest than what is published. It gets
      the published version's name exactly when it is made within the same second and the two
      digests share their first eight digits. */
  lemma TakesPublishedNameIff(root: Root, files: seq<OutFile>, hex: Hex, stamp: string, was: string)
    requires NamedAt(root, was, hex) && IsStamp(stamp) && GoodHex(hex)
    requires DistinctKeys(files) && NulFreeTable(KeyMap(files)) && !IsUnchanged(root, files)
    ensures var digest, published := SetDigestOf(files, hex), TableDigest(ShownTable(root).value, hex);
            && digest != published
            && (CurrentOf(root) == Some(VersionFor(stamp, files, hex)) <==> stamp == was && Tail(hex(digest)) == Tail(hex(published)))
  {
    var m := ManifestAt(root, CurrentOf(root).value).value;
    var table := PublishedETags(m);
    SetDigestIsTableDigest(files, hex);
    if SetDigestOf(files, hex) == TableDigest(table, hex) {
      TableDigestInjective(table, KeyMap(files), hex);
      UnchangedIff(m, files);
      assert false;
    }
    NewVersionIff(was, hex(TableDigest(table, hex)), stamp, hex(SetDigestOf(files, hex)));
  }

  lemma PermutedTable(a: seq<OutFile>, b: seq<OutFile>)
    requires multiset(a) == multiset(b) && DistinctKeys(a) && DistinctKeys(b)
    ensures KeyMap(a) == KeyMap(b)
  {
    KeyMapFacts(a);
    KeyMapFacts(b);
    assert forall f :: f in a <==> f in multiset(a);
    assert forall f :: f in b <==> f in multiset(b);
    forall k | k in KeyMap(a) || k in KeyMap(b) ensures Lookup(KeyMap(a), k) == Lookup(KeyMap(b), k) {
      var f :| (f in a || f in b) && Key(f) == k;
    }
    SameLookups(KeyMap(a), KeyMap(b));
  }

  lemma TableOfOrdered(d: Draft, files: seq<OutFile>, ordered: seq<OutFile>, labels: seq<string>)
    requires Empty(d) && SafeFiles(files) && DistinctKeys(files) && multiset(files) == multiset(ordered)
    ensures var m := ManifestOf(DraftAfter(d, AsListFiles(ordered, labels))); SafeManifest(m) && PublishedETags(m) == KeyMap(files)
  {
    PermutedKeys(files, ordered);
    ManifestShowsTheFiles(d, ordered, labels);
    PermutedTable(files, ordered);
  }

  /** The set a build finishes is named after its own table. */
  lemma BuildNamesItself(site: Site, d: Draft, files: seq<OutFile>, ordered: seq<OutFile>, labels: seq<string>, stamp: string)
    requires Empty(d) && IsStamp(stamp) && d.version == VersionFor(stamp, files, site.hex)
    requires SafeFiles(files) && DistinctKeys(files) && NulFreeTable(KeyMap(files)) && multiset(files) == multiset(ordered)
    ensures NamedFiles(FinalFiles(site, d, AsListFiles(ordered, labels)), d.version, site.hex)
  {
    TableOfOrdered(d, files, ordered, labels);
    SetDigestIsTableDigest(files, site.hex);
    assert NamedAfter(ManifestOf(DraftAfter(d, AsListFiles(ordered, labels))), d.version, stamp, site.hex);
  }
}
