/** The order in which publish writes the files: when its comparator is an order at all, and
    what the order of writing then depends on. */
module WriteOrder {
  import opened Names
  import opened Rules
  import Collapsing
  import opened Sorting
  import opened Rendering
  import opened Disks
  import opened SnapshotSets
  import opened Dedup
  import opened Builders
  import opened Publishing

  /** The comparator given to SortFunc. */
  function Cmp(a: OutFile, b: OutFile): int {
    if a.tenant != b.tenant then |a.tenant| - |b.tenant|
    else if a.name != b.name then (if Less(a.name, b.name) then -1 else 1)
    else 0
  }

  predicate Before(a: OutFile, b: OutFile) {
    Cmp(a, b) < 0
  }

  predicate Tied(a: OutFile, b: OutFile) {
    Cmp(a, b) == 0
  }

  ghost predicate AsymmetricOn<T>(less: (T, T) -> bool, xs: seq<T>) {
    forall a, b :: a in xs && b in xs && less(a, b) ==> !less(b, a)
  }

  ghost predicate TransitiveOn<T>(r: (T, T) -> bool, xs: seq<T>) {
    forall a, b, c :: a in xs && b in xs && c in xs && r(a, b) && r(b, c) ==> r(a, c)
  }

  /** What SortFunc asks of a comparator on the files it sorts. */
  ghost predicate StrictWeakOrder(files: seq<OutFile>) {
    AsymmetricOn(Before, files) && TransitiveOn(Before, files) && TransitiveOn(Tied, files)
  }

  /** No two different slugs have the same length. */
  ghost predicate SlugLengthsDiffer(files: seq<OutFile>) {
    forall a, b :: a in files && b in files && a.tenant != b.tenant ==> |a.tenant| != |b.tenant|
  }

  /** Every tenant has at least two names, as all.txt and allowlist.txt see to. */
  ghost predicate TwoNamesEach(files: seq<OutFile>) {
    forall a {:trigger OtherName(files, a)} :: a in files ==> OtherName(files, a)
  }

  /** The file's tenant has a file of another name. */
  ghost predicate OtherName(files: seq<OutFile>, a: OutFile) {
    exists b :: b in files && b.tenant == a.tenant && b.name != a.name
  }

  lemma CmpOpposite(a: OutFile, b: OutFile)
    ensures Before(a, b) <==> Cmp(b, a) > 0
    ensures Tied(a, b) <==> Tied(b, a)
  {
    LessTotal(a.name, b.name);
    if Less(a.name, b.name) { LessAsymmetric(a.name, b.name); }
  }

  lemma CmpTransitive(a: OutFile, b: OutFile, c: OutFile)
    requires a.tenant != b.tenant ==> |a.tenant| != |b.tenant|
    requires b.tenant != c.tenant ==> |b.tenant| != |c.tenant|
    requires a.tenant != c.tenant ==> |a.tenant| != |c.tenant|
    ensures Before(a, b) && Before(b, c) ==> Before(a, c)
    ensures Tied(a, b) && Tied(b, c) ==> Tied(a, c)
  {
    if Less(a.name, b.name) && Less(b.name, c.name) {
      LessTransitive(a.name, b.name, c.name);
      LessIrreflexive(a.name);
    }
  }

  lemma NotTransitive<T>(r: (T, T) -> bool, xs: seq<T>, a: T, b: T, c: T)
    requires a in xs && b in xs && c in xs && r(a, b) && r(b, c) && !r(a, c)
    ensures !TransitiveOn(r, xs)
  {
  }

  /** Two slugs of one length tie with each other, but the names of one slug do not tie among
      themselves, so ties are not transitive. */
  lemma EqualLengthsBreakTies(files: seq<OutFile>, a: OutFile, b: OutFile)
    requires TwoNamesEach(files) && a in files && b in files && a.tenant != b.tenant && |a.tenant| == |b.tenant|
    ensures !TransitiveOn(Tied, files)
  {
    assert OtherName(files, a);
    var c :| c in files && c.tenant == a.tenant && c.name != a.name;
    NotTransitive(Tied, files, a, b, c);
  }

  lemma DifferentLengthsOrder(files: seq<OutFile>)
    requires SlugLengthsDiffer(files)
    ensures StrictWeakOrder(files)
  {
    forall a, b | a in files && b in files && Before(a, b) ensures !Before(b, a) { CmpOpposite(a, b); }
    forall a, b, c | a in files && b in files && c in files && Before(a, b) && Before(b, c) ensures Before(a, c) { CmpTransitive(a, b, c); }
    forall a, b, c | a in files && b in files && c in files && Tied(a, b) && Tied(b, c) ensures Tied(a, c) { CmpTransitive(a, b, c); }
  }

  /** The comparator, exactly: on files where every tenant has two names it is a strict weak
      order if and only if no two different slugs have the same length. */
  lemma CmpIsAnOrderIff(files: seq<OutFile>)
    requires TwoNamesEach(files)
    ensures StrictWeakOrder(files) <==> SlugLengthsDiffer(files)
  {
    if SlugLengthsDiffer(files) {
      DifferentLengthsOrder(files);
    } else {
      var a, b :| a in files && b in files && a.tenant != b.tenant && |a.tenant| == |b.tenant|;
      EqualLengthsBreakTies(files, a, b);
    }
  }

  /** Tenants aa and bb show it: each of aa's two files ties with bb's, and not with the other. */
  lemma TiesAreNotTransitive(x: Body, y: Body, z: Body)
    ensures var a, b, c := OutFile("aa", "all.txt", x), OutFile("bb", "all.txt", y), OutFile("aa", "b.txt", z);
            Tied(a, b) && Tied(b, c) && !Tied(a, c)
  {
    assert "aa"[0] != "bb"[0];
    assert |"all.txt"| != |"b.txt"|;
  }

  // ----- the files of a build -----

  lemma TenantHasTwoNames(t: Tenant, base: Base, f: Collapsing.Format, a: OutFile)
    requires Collapsing.ValidFormat(f) && a in TenantFiles(t, base, f)
    ensures a.tenant == Slug(t)
    ensures OtherName(TenantFiles(t, base, f), a)
  {
    var files := TenantFiles(t, base, f);
    var all, allow := OutFile(Slug(t), ALL, Rendered(Union(t, base, t.categories), f).value), OutFile(Slug(t), ALLOW, Rendered(t.allowRules, f).value);
    CategoryFilesOfTenant(t, base, f, t.categories);
    assert all in files && allow in files;
    assert |ALL| != |ALLOW|;
    assert a.name != ALL || a.name != ALLOW;
  }

  lemma {:induction false} CategoryFilesOfTenant(t: Tenant, base: Base, f: Collapsing.Format, categories: seq<string>)
    requires Collapsing.ValidFormat(f)
    ensures forall a :: a in CategoryFiles(t, base, f, categories) ==> a.tenant == Slug(t)
  {
    if categories != [] { CategoryFilesOfTenant(t, base, f, categories[..|categories| - 1]); }
  }

  lemma TwoNamesConcat(x: seq<OutFile>, y: seq<OutFile>)
    requires TwoNamesEach(x) && TwoNamesEach(y)
    ensures TwoNamesEach(x + y)
  {
    forall a | a in x + y ensures OtherName(x + y, a) {
      var side := if a in x then x else y;
      assert OtherName(side, a);
      var b :| b in side && b.tenant == a.tenant && b.name != a.name;
      assert b in x + y;
    }
  }

  lemma TenantTwoNames(t: Tenant, base: Base, f: Collapsing.Format)
    requires Collapsing.ValidFormat(f)
    ensures TwoNamesEach(TenantFiles(t, base, f))
  {
    forall a | a in TenantFiles(t, base, f) ensures OtherName(TenantFiles(t, base, f), a) {
      TenantHasTwoNames(t, base, f, a);
    }
  }

  /** What a build writes always has two names for every tenant, so the equivalence applies. */
  lemma {:induction false} BuildHasTwoNames(tenants: seq<Tenant>, base: Base, format: Collapsing.Format)
    requires Renderable(tenants, format)
    ensures TwoNamesEach(AllFiles(tenants, base, format))
  {
    if tenants != [] {
      var front, t := tenants[..|tenants| - 1], tenants[|tenants| - 1];
      BuildHasTwoNames(front, base, format);
      TenantTwoNames(t, base, FormatFor(t, format));
      TwoNamesConcat(AllFiles(front, base, format), TenantFiles(t, base, FormatFor(t, format)));
    }
  }

  // ----- what the order depends on -----

  /** A rearrangement of the files that the comparator finds in order. */
  ghost predicate SortedFiles(files: seq<OutFile>, ordered: seq<OutFile>) {
    multiset(ordered) == multiset(files) && Ordered(Before, ordered)
  }

  lemma SameMembers(files: seq<OutFile>, ordered: seq<OutFile>)
    requires SortedFiles(files, ordered)
    ensures forall x :: x in ordered <==> x in files
  {
    assert forall x :: x in ordered <==> x in multiset(ordered);
    assert forall x :: x in files <==> x in multiset(files);
  }

  lemma TiedFilesShareAKey(a: OutFile, b: OutFile)
    requires Tied(a, b) && (a.tenant != b.tenant ==> |a.tenant| != |b.tenant|)
    ensures a.tenant == b.tenant && a.name == b.name
  {
  }

  ghost predicate OneFilePerKey(files: seq<OutFile>) {
    forall a, b :: a in files && b in files && a.tenant == b.tenant && a.name == b.name ==> a == b
  }

  lemma OrderedTail(s: seq<OutFile>)
    requires s != [] && Ordered(Before, s)
    ensures Ordered(Before, s[1..])
  {
  }

  lemma SameFirst(s: seq<OutFile>, t: seq<OutFile>)
    requires s != [] && t != [] && s[0] in t && t[0] in s && Ordered(Before, s) && Ordered(Before, t)
    requires SlugLengthsDiffer(s) && OneFilePerKey(s)
    ensures s[0] == t[0]
  {
    CmpOpposite(s[0], t[0]);
    var i :| 0 <= i < |s| && s[i] == t[0];
    var j :| 0 <= j < |t| && t[j] == s[0];
    assert s[0] in s;
    if s[0] != t[0] {
      assert !Before(t[0], s[0]) && !Before(s[0], t[0]);
      TiedFilesShareAKey(s[0], t[0]);
    }
  }

  lemma {:induction false} SortedListsAgree(s: seq<OutFile>, t: seq<OutFile>)
    requires multiset(s) == multiset(t) && SlugLengthsDiffer(s) && OneFilePerKey(s)
    requires Ordered(Before, s) && Ordered(Before, t)
    ensures s == t
  {
    assert |s| == |multiset(s)| == |multiset(t)| == |t|;
    if s != [] {
      assert s[0] in multiset(t) && t[0] in multiset(s);
      SameFirst(s, t);
      MultisetTail(s);
      MultisetTail(t);
      OrderedTail(s);
      OrderedTail(t);
      assert forall x :: x in s[1..] ==> x in s;
      SortedListsAgree(s[1..], t[1..]);
    }
  }

  // Two ways to settle the ties between slugs of one length: upwards and downwards.

  predicate SlugBefore(up: bool, s: string, t: string) {
    if |s| != |t| then |s| < |t| else if up then Less(s, t) else Less(t, s)
  }

  predicate KeyBefore(up: bool, a: OutFile, b: OutFile) {
    SlugBefore(up, a.tenant, b.tenant) || (a.tenant == b.tenant && Less(a.name, b.name))
  }

  function Direction(up: bool): (OutFile, OutFile) -> bool {
    (a, b) => KeyBefore(up, a, b)
  }

  lemma SlugBeforeIsStrict(up: bool, r: string, s: string, t: string)
    ensures !SlugBefore(up, r, r)
    ensures SlugBefore(up, r, s) && SlugBefore(up, s, t) ==> SlugBefore(up, r, t)
  {
    LessIrreflexive(r);
    if Less(r, s) && Less(s, t) { LessTransitive(r, s, t); }
    if Less(t, s) && Less(s, r) { LessTransitive(t, s, r); }
  }

  lemma DirectionIsStrict(up: bool)
    ensures StrictPartialOrder(Direction(up))
  {
    forall a ensures !KeyBefore(up, a, a) {
      SlugBeforeIsStrict(up, a.tenant, a.tenant, a.tenant);
      LessIrreflexive(a.name);
    }
    forall a, b, c | KeyBefore(up, a, b) && KeyBefore(up, b, c) ensures KeyBefore(up, a, c) {
      SlugBeforeIsStrict(up, a.tenant, b.tenant, c.tenant);
      if Less(a.name, b.name) && Less(b.name, c.name) { LessTransitive(a.name, b.name, c.name); }
    }
  }

  /** The files sorted one way or the other: the comparator finds both in order. */
  ghost function Arranged(up: bool, files: seq<OutFile>): seq<OutFile> {
    Sort(Direction(up), files)
  }

  lemma ArrangedIsSorted(up: bool, files: seq<OutFile>)
    ensures SortedFiles(files, Arranged(up, files)) && Ordered(Direction(up), Arranged(up, files))
  {
    var o := Arranged(up, files);
    DirectionIsStrict(up);
    SortOrdered(Direction(up), files);
    forall i, j | 0 <= i < j < |o| ensures !Before(o[j], o[i]) { assert !KeyBefore(up, o[j], o[i]); }
  }

  /** Every way to sort the files gives the same list. */
  ghost predicate OneArrangement(files: seq<OutFile>) {
    forall o1, o2 :: SortedFiles(files, o1) && SortedFiles(files, o2) ==> o1 == o2
  }

  lemma PlacedBefore<T>(less: (T, T) -> bool, o: seq<T>, i: nat, j: nat)
    requires Ordered(less, o) && i < |o| && j < |o| && o[i] != o[j] && less(o[i], o[j])
    ensures i < j
  {
  }

  /** No list goes up and down where two slugs have one length. */
  lemma NotBothWays(o: seq<OutFile>, a: OutFile, b: OutFile)
    requires a in o && b in o && |a.tenant| == |b.tenant| && Less(a.tenant, b.tenant)
    ensures !(Ordered(Direction(true), o) && Ordered(Direction(false), o))
  {
    LessIrreflexive(a.tenant);
    var i :| 0 <= i < |o| && o[i] == a;
    var j :| 0 <= j < |o| && o[j] == b;
    assert Direction(true)(a, b) && Direction(false)(b, a);
    if Ordered(Direction(true), o) { PlacedBefore(Direction(true), o, i, j); }
    if Ordered(Direction(false), o) { PlacedBefore(Direction(false), o, j, i); }
  }

  lemma EqualLengthsLeaveAChoice(files: seq<OutFile>, a: OutFile, b: OutFile)
    requires a in files && b in files && |a.tenant| == |b.tenant| && Less(a.tenant, b.tenant)
    ensures Arranged(true, files) != Arranged(false, files)
  {
    ArrangedIsSorted(true, files);
    ArrangedIsSorted(false, files);
    SameMembers(files, Arranged(true, files));
    NotBothWays(Arranged(true, files), a, b);
  }

  /** The order of writing, exactly: with one file per key the comparator leaves no choice if and
      only if no two different slugs have the same length. */
  lemma WriteOrderDeterminedIff(files: seq<OutFile>)
    requires OneFilePerKey(files)
    ensures OneArrangement(files) <==> SlugLengthsDiffer(files)
  {
    if SlugLengthsDiffer(files) {
      forall o1, o2 | SortedFiles(files, o1) && SortedFiles(files, o2) ensures o1 == o2 {
        SameMembers(files, o1);
        SortedListsAgree(o1, o2);
      }
    } else {
      var a, b :| a in files && b in files && a.tenant != b.tenant && |a.tenant| == |b.tenant|;
      LessTotal(a.tenant, b.tenant);
      ArrangedIsSorted(true, files);
      ArrangedIsSorted(false, files);
      if Less(a.tenant, b.tenant) { EqualLengthsLeaveAChoice(files, a, b); } else { EqualLengthsLeaveAChoice(files, b, a); }
    }
  }

  /** The default tenant's files always come first, whatever the other slugs are. */
  lemma DefaultTenantFirst(files: seq<OutFile>, ordered: seq<OutFile>, i: nat, j: nat)
    requires SortedFiles(files, ordered) && i < j < |ordered| && ordered[j].tenant == ""
    ensures ordered[i].tenant == ""
  {
    assert !Before(ordered[j], ordered[i]);
  }
}
