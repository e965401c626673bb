/** Finite sets: images, enumeration, maxima and cardinality. */
module Sets {

  ghost function Pick<T>(s: set<T>): (x: T)
    requires s != {}
    ensures x in s
  {
    var x :| x in s;
    x
  }

  ghost function Image<T(!new), U(!new)>(a: set<T>, f: T -> U): set<U> {
    set x | x in a :: f(x)
  }

  lemma ImageGrow<T(!new), U(!new)>(a: set<T>, e: T, f: T -> U)
    ensures Image(a + {e}, f) == Image(a, f) + {f(e)}
  {
  }

  lemma ImageMember<T(!new), U(!new)>(a: set<T>, e: T, f: T -> U)
    requires e in a
    ensures f(e) in Image(a, f)
  {
  }

  lemma ImageSubset<T(!new), U(!new)>(a: set<T>, b: set<T>, f: T -> U)
    requires a <= b
    ensures Image(a, f) <= Image(b, f)
  {
  }

  lemma SubsetCard<T>(s: set<T>, t: set<T>)
    requires s <= t
    ensures |s| <= |t|
  {
    assert t == s + (t - s);
  }

  // ----- maximum above zero -----

  ghost predicate IsMax(m: int, s: set<int>) {
    m >= 0 && (forall x :: x in s ==> x <= m) && (m == 0 || m in s)
  }

  /** The largest element above 0, or 0. */
  ghost function Max0(s: set<int>): (m: int)
    ensures IsMax(m, s)
  {
    if s == {} then 0 else
      var x := Pick(s);
      var m := Max0(s - {x});
      assert forall y :: y in s ==> y == x || y in s - {x};
      if x < m then m else x
  }

  lemma Max0Insert(s: set<int>, x: int)
    ensures Max0(s + {x}) == if x > Max0(s) then x else Max0(s)
  {
    assert x in s + {x};
    assert forall y :: y in s ==> y in s + {x};
  }

  lemma Max0Subset(s: set<int>, t: set<int>)
    requires s <= t
    ensures Max0(s) <= Max0(t)
  {
  }
}
