/** slices.Sort, slices.SortFunc and slices.Compact, for any strict total order. The sorted
    list is unique, so the choice of sorting algorithm cannot matter. */
module Sorting {
  import opened Sets

  ghost predicate StrictTotalOrder<T(!new)>(less: (T, T) -> bool) {
    && (forall x :: !less(x, x))
    && (forall x, y, z :: less(x, y) && less(y, z) ==> less(x, z))
    && (forall x, y :: less(x, y) || x == y || less(y, x))
  }

  ghost predicate Sorted<T(!new)>(less: (T, T) -> bool, s: seq<T>) {
    forall i, j :: 0 <= i < j < |s| ==> s[i] == s[j] || less(s[i], s[j])
  }

  ghost predicate StrictlySorted<T(!new)>(less: (T, T) -> bool, s: seq<T>) {
    forall i, j :: 0 <= i < j < |s| ==> less(s[i], s[j])
  }

  ghost predicate NoRepeat<T>(s: seq<T>) {
    forall i, j :: 0 <= i < j < |s| ==> s[i] != s[j]
  }

  function Insert<T(==)>(less: (T, T) -> bool, x: T, s: seq<T>): (t: seq<T>)
    ensures multiset(t) == multiset(s) + multiset{x}
  {
    if s == [] then [x]
    else if x == s[0] || less(x, s[0]) then [x] + s
    else
      assert s == [s[0]] + s[1..];
      [s[0]] + Insert(less, x, s[1..])
  }

  lemma {:induction false} InsertSorted<T(!new)>(less: (T, T) -> bool, x: T, s: seq<T>)
    requires StrictTotalOrder(less) && Sorted(less, s)
    ensures Sorted(less, Insert(less, x, s))
  {
    if s != [] && !(x == s[0] || less(x, s[0])) {
      InsertSorted(less, x, s[1..]);
      var t := Insert(less, x, s[1..]);
      forall j | 0 <= j < |t| ensures t[j] == s[0] || less(s[0], t[j]) {
        assert t[j] in multiset(t);
        assert t[j] == x || t[j] in s[1..];
      }
    }
  }

  function Sort<T(==)>(less: (T, T) -> bool, s: seq<T>): (t: seq<T>)
    ensures multiset(t) == multiset(s)
  {
    if s == [] then []
    else
      assert s == [s[0]] + s[1..];
      Insert(less, s[0], Sort(less, s[1..]))
  }

  lemma {:induction false} SortSorted<T(!new)>(less: (T, T) -> bool, s: seq<T>)
    requires StrictTotalOrder(less)
    ensures Sorted(less, Sort(less, s))
  {
    if s != [] {
      SortSorted(less, s[1..]);
      InsertSorted(less, s[0], Sort(less, s[1..]));
    }
  }

  lemma SortMembers<T>(less: (T, T) -> bool, s: seq<T>)
    ensures forall x :: x in Sort(less, s) <==> x in s
    ensures |Sort(less, s)| == |s|
  {
    var t := Sort(less, s);
    assert |t| == |multiset(t)| == |multiset(s)| == |s|;
    assert forall x :: x in multiset(t) <==> x in t;
    assert forall x :: x in multiset(s) <==> x in s;
  }

  lemma MultisetTail<T>(s: seq<T>)
    requires s != []
    ensures multiset(s[1..]) == multiset(s) - multiset{s[0]}
  {
    assert s == [s[0]] + s[1..];
  }

  lemma SmallestFirst<T(!new)>(less: (T, T) -> bool, s: seq<T>, t: seq<T>)
    requires StrictTotalOrder(less) && Sorted(less, s) && Sorted(less, t)
    requires s != [] && t != [] && s[0] in t && t[0] in s
    ensures s[0] == t[0]
  {
  }

  /** Any sorting algorithm, stable or not, produces the same list. */
  lemma {:induction false} SortedPermutationUnique<T(!new)>(less: (T, T) -> bool, s: seq<T>, t: seq<T>)
    requires StrictTotalOrder(less)
    requires Sorted(less, s) && Sorted(less, t) && multiset(s) == multiset(t)
    ensures s == t
  {
    assert |s| == |multiset(s)| == |multiset(t)| == |t|;
    if s != [] {
      assert s[0] in multiset(t) && t[0] in multiset(s);
      SmallestFirst(less, s, t);
      MultisetTail(s);
      MultisetTail(t);
      SortedPermutationUnique(less, s[1..], t[1..]);
    }
  }

  lemma {:induction false} NoRepeatMultiset<T>(s: seq<T>)
    requires NoRepeat(s)
    ensures forall x :: multiset(s)[x] <= 1
  {
    if s != [] {
      var n := |s| - 1;
      NoRepeatMultiset(s[..n]);
      assert s == s[..n] + [s[n]];
      assert s[n] !in s[..n];
    }
  }

  lemma RepeatedMultiset<T>(t: seq<T>, i: nat, j: nat)
    requires i < j < |t| && t[i] == t[j]
    ensures multiset(t)[t[i]] >= 2
  {
    assert t == t[..j] + [t[j]] + t[j + 1..];
    assert t[i] in t[..j];
  }

  lemma SortNoRepeat<T>(less: (T, T) -> bool, s: seq<T>)
    requires NoRepeat(s)
    ensures NoRepeat(Sort(less, s))
  {
    var t := Sort(less, s);
    NoRepeatMultiset(s);
    forall i, j | 0 <= i < j < |t| ensures t[i] != t[j] {
      if t[i] == t[j] { RepeatedMultiset(t, i, j); }
    }
  }

  /** Without repetition sorting gives a strictly increasing list. */
  lemma SortStrict<T(!new)>(less: (T, T) -> bool, s: seq<T>)
    requires StrictTotalOrder(less) && NoRepeat(s)
    ensures StrictlySorted(less, Sort(less, s))
  {
    SortSorted(less, s);
    SortNoRepeat(less, s);
  }

  /** slices.Compact: drop an element equal to the one before it. */
  function Compact<T(==)>(s: seq<T>): seq<T> {
    if |s| <= 1 then s
    else if s[0] == s[1] then Compact(s[1..])
    else [s[0]] + Compact(s[1..])
  }

  lemma {:induction false} CompactMembers<T>(s: seq<T>)
    ensures forall x :: x in Compact(s) <==> x in s
    ensures s != [] ==> Compact(s) != [] && Compact(s)[0] == s[0]
    ensures |Compact(s)| <= |s|
  {
    if |s| > 1 {
      CompactMembers(s[1..]);
      assert s == [s[0]] + s[1..];
    }
  }

  lemma {:induction false} CompactStrict<T(!new)>(less: (T, T) -> bool, s: seq<T>)
    requires StrictTotalOrder(less) && Sorted(less, s)
    ensures StrictlySorted(less, Compact(s))
  {
    if |s| > 1 {
      CompactStrict(less, s[1..]);
      CompactMembers(s[1..]);
      if s[0] != s[1] {
        forall x | x in Compact(s[1..]) ensures less(s[0], x) {
          var k :| 1 <= k < |s| && s[k] == x;
          assert s[1] == s[k] || less(s[1], s[k]);
        }
      }
    }
  }

  /** A strictly sorted list is determined by its set of elements. */
  lemma {:induction false} StrictlySortedUnique<T(!new)>(less: (T, T) -> bool, s: seq<T>, t: seq<T>)
    requires StrictTotalOrder(less)
    requires StrictlySorted(less, s) && StrictlySorted(less, t)
    requires forall x :: x in s <==> x in t
    ensures s == t
  {
    if s != [] && t != [] {
      assert s[0] in t && t[0] in s;
      assert s == [s[0]] + s[1..] && t == [t[0]] + t[1..];
      forall x ensures x in s[1..] <==> x in t[1..] {
        assert x in s <==> x in t;
        assert x in s[1..] ==> less(s[0], x);
        assert x in t[1..] ==> less(t[0], x);
      }
      StrictlySortedUnique(less, s[1..], t[1..]);
    } else {
      if s != [] { SomeMember(s); }
      if t != [] { SomeMember(t); }
    }
  }

  lemma SomeMember<T>(s: seq<T>)
    requires s != []
    ensures exists x :: x in s
  {
    assert s[0] in s;
  }

  /** Sort then Compact: the list is a function of the set of elements. */
  lemma SortCompactCanonical<T(!new)>(less: (T, T) -> bool, s: seq<T>, t: seq<T>)
    requires StrictTotalOrder(less)
    requires forall x :: x in s <==> x in t
    ensures Compact(Sort(less, s)) == Compact(Sort(less, t))
    ensures StrictlySorted(less, Compact(Sort(less, s)))
  {
    SortSorted(less, s);
    SortSorted(less, t);
    SortMembers(less, s);
    SortMembers(less, t);
    CompactStrict(less, Sort(less, s));
    CompactStrict(less, Sort(less, t));
    CompactMembers(Sort(less, s));
    CompactMembers(Sort(less, t));
    StrictlySortedUnique(less, Compact(Sort(less, s)), Compact(Sort(less, t)));
  }

  // ----- sorting by a strict partial order -----

  ghost predicate StrictPartialOrder<T(!new)>(less: (T, T) -> bool) {
    (forall x :: !less(x, x)) && forall x, y, z :: less(x, y) && less(y, z) ==> less(x, z)
  }

  /** No element comes before one that is less. */
  ghost predicate Ordered<T>(less: (T, T) -> bool, s: seq<T>) {
    forall i, j :: 0 <= i < j < |s| ==> !less(s[j], s[i])
  }

  lemma {:induction false} InsertOrdered<T(!new)>(less: (T, T) -> bool, x: T, s: seq<T>)
    requires StrictPartialOrder(less) && Ordered(less, s)
    ensures Ordered(less, Insert(less, x, s))
  {
    if s != [] && !(x == s[0] || less(x, s[0])) {
      InsertOrdered(less, x, s[1..]);
      var t := Insert(less, x, s[1..]);
      forall j | 0 <= j < |t| ensures !less(t[j], s[0]) {
        assert t[j] in multiset(t);
        assert t[j] == x || t[j] in s[1..];
      }
    }
  }

  lemma {:induction false} SortOrdered<T(!new)>(less: (T, T) -> bool, s: seq<T>)
    requires StrictPartialOrder(less)
    ensures Ordered(less, Sort(less, s))
  {
    if s != [] {
      SortOrdered(less, s[1..]);
      InsertOrdered(less, s[0], Sort(less, s[1..]));
    }
  }

  // ----- the sorted list of a set -----

  ghost function Enumerate<T(!new)>(s: set<T>): (q: seq<T>)
    ensures forall x :: x in q <==> x in s
    ensures |q| == |s|
  {
    if s == {} then [] else [Pick(s)] + Enumerate(s - {Pick(s)})
  }

  /** The elements of a set in strictly increasing order. */
  ghost function Listing<T(!new)>(less: (T, T) -> bool, s: set<T>): seq<T> {
    Compact(Sort(less, Enumerate(s)))
  }

  lemma ListingIsSorted<T(!new)>(less: (T, T) -> bool, s: set<T>)
    requires StrictTotalOrder(less)
    ensures StrictlySorted(less, Listing(less, s))
    ensures forall x :: x in Listing(less, s) <==> x in s
  {
    var q := Enumerate(s);
    SortCompactCanonical(less, q, q);
    CompactMembers(Sort(less, q));
    SortMembers(less, q);
  }

  lemma ListingUnique<T(!new)>(less: (T, T) -> bool, s: set<T>, t: seq<T>)
    requires StrictTotalOrder(less) && StrictlySorted(less, t)
    requires forall x :: x in t <==> x in s
    ensures t == Listing(less, s)
  {
    ListingIsSorted(less, s);
    StrictlySortedUnique(less, t, Listing(less, s));
  }
}
