/** Strings as the Go code handles them: byte order, dot-separated labels, and the
    "at or below" relation between domain names that every package relies on. */
module Names {

  // ----- byte order (strings.Compare) -----

  /** strings.Compare(a, b) < 0. */
  predicate Less(a: string, b: string) {
    b != [] && (a == [] || a[0] < b[0] || (a[0] == b[0] && Less(a[1..], b[1..])))
  }

  predicate Leq(a: string, b: string) {
    a == b || Less(a, b)
  }

  lemma {:induction false} LessIrreflexive(a: string)
    ensures !Less(a, a)
  {
    if a != [] { LessIrreflexive(a[1..]); }
  }

  lemma {:induction false} LessTransitive(a: string, b: string, c: string)
    requires Less(a, b) && Less(b, c)
    ensures Less(a, c)
  {
    if a != [] && a[0] == b[0] && b[0] == c[0] { LessTransitive(a[1..], b[1..], c[1..]); }
  }

  /** Byte order is total: two names that are not ordered are equal. */
  lemma {:induction false} LessTotal(a: string, b: string)
    ensures Less(a, b) || a == b || Less(b, a)
  {
    if a != [] && b != [] && a[0] == b[0] {
      LessTotal(a[1..], b[1..]);
      assert a == [a[0]] + a[1..] && b == [b[0]] + b[1..];
    }
  }

  lemma LessAsymmetric(a: string, b: string)
    requires Less(a, b)
    ensures !Less(b, a) && a != b
  {
    LessIrreflexive(a);
    if Less(b, a) { LessTransitive(a, b, a); }
  }

  /** Everything sorted between a string and one of its extensions extends it too. */
  lemma {:induction false} BetweenExtensions(p: string, x: string, d: string)
    requires p <= d && Leq(p, x) && Leq(x, d)
    ensures p <= x
  {
    if p != [] && p != x && x != d {
      LessAsymmetric(p, x);
      LessAsymmetric(x, d);
      assert x[0] == p[0];
      BetweenExtensions(p[1..], x[1..], d[1..]);
    }
  }

  // ----- labels (strings.Split / strings.Join on ".") -----

  function Split(s: string): (r: seq<string>)
    ensures |r| >= 1
    ensures forall l :: l in r ==> '.' !in l
  {
    if s == [] then [[]]
    else
      Prepend(s[0], Split(s[1..]))
  }

  /** One more character in front: a dot opens a new label, anything else extends the first. */
  function Prepend(c: char, labels: seq<string>): (r: seq<string>)
    requires |labels| >= 1
    ensures |r| >= 1
    ensures (forall l :: l in labels ==> '.' !in l) ==> forall l :: l in r ==> '.' !in l
  {
    if c == '.' then [[]] + labels else [[c] + labels[0]] + labels[1..]
  }

  function Join(labels: seq<string>): string
    requires |labels| >= 1
  {
    if |labels| == 1 then labels[0] else labels[0] + "." + Join(labels[1..])
  }

  lemma AppendAssociates(c: string, a: string, b: string)
    ensures (c + a) + "." + b == c + (a + "." + b)
  {
  }

  lemma JoinOne(l: string)
    ensures Join([l]) == l
  {
  }

  lemma JoinMore(l: string, rest: seq<string>)
    requires |rest| >= 1
    ensures Join([l] + rest) == l + "." + Join(rest)
  {
    assert ([l] + rest)[0] == l && ([l] + rest)[1..] == rest;
  }

  lemma JoinExtend(c: char, l: string, rest: seq<string>)
    ensures Join([[c] + l] + rest) == [c] + Join([l] + rest)
  {
    if rest == [] {
      assert [[c] + l] + rest == [[c] + l] && [l] + rest == [l];
      JoinOne(l);
      JoinOne([c] + l);
    } else {
      JoinMore(l, rest);
      JoinMore([c] + l, rest);
      AppendAssociates([c], l, Join(rest));
    }
  }

  lemma JoinDot(r: seq<string>)
    requires |r| >= 1
    ensures Join([[]] + r) == ['.'] + Join(r)
  {
    var none: string := [];
    JoinMore(none, r);
    assert none + "." == ['.'];
  }

  lemma JoinPrepend(c: char, r: seq<string>)
    requires |r| >= 1
    ensures Join(Prepend(c, r)) == [c] + Join(r)
  {
    var joined := Join(r);
    if c == '.' {
      assert Prepend(c, r) == [[]] + r;
      JoinDot(r);
    } else {
      assert Prepend(c, r) == [[c] + r[0]] + r[1..];
      JoinExtend(c, r[0], r[1..]);
      assert joined == Join([r[0]] + r[1..]) by { assert r == [r[0]] + r[1..]; }
    }
  }

  lemma {:induction false} JoinSplit(s: string)
    ensures Join(Split(s)) == s
  {
    if s != [] {
      JoinSplit(s[1..]);
      JoinPrepend(s[0], Split(s[1..]));
    }
  }

  lemma {:induction false} SplitDotFree(s: string)
    requires '.' !in s
    ensures Split(s) == [s]
  {
    if s != [] {
      SplitDotFree(s[1..]);
      assert s == [s[0]] + s[1..];
    }
  }

  lemma PrependConcat(c: char, r: seq<string>, t: seq<string>)
    requires |r| >= 1
    ensures Prepend(c, r + t) == Prepend(c, r) + t
  {
    assert (r + t)[0] == r[0] && (r + t)[1..] == r[1..] + t;
  }

  lemma {:induction false} SplitAtDot(x: string, y: string)
    ensures Split(x + "." + y) == Split(x) + Split(y)
  {
    var z := x + "." + y;
    if x == [] {
      assert z[0] == '.' && z[1..] == y;
    } else {
      assert z[0] == x[0] && z[1..] == x[1..] + "." + y;
      SplitAtDot(x[1..], y);
      PrependConcat(x[0], Split(x[1..]), Split(y));
    }
  }

  lemma {:induction false} SplitJoin(labels: seq<string>)
    requires |labels| >= 1
    requires forall l :: l in labels ==> '.' !in l
    ensures Split(Join(labels)) == labels
  {
    SplitDotFree(labels[0]);
    if |labels| > 1 {
      SplitJoin(labels[1..]);
      SplitAtDot(labels[0], Join(labels[1..]));
      assert labels == [labels[0]] + labels[1..];
    } else {
      assert labels == [labels[0]];
    }
  }

  lemma {:induction false} JoinConcat(a: seq<string>, b: seq<string>)
    requires a != [] && b != []
    ensures Join(a + b) == Join(a) + "." + Join(b)
  {
    if |a| == 1 {
      assert (a + b)[1..] == b;
    } else {
      JoinConcat(a[1..], b);
      assert (a + b)[1..] == a[1..] + b;
    }
  }

  /** Split is injective, so a name and its label sequence carry the same information. */
  lemma SplitInjective(a: string, b: string)
    requires Split(a) == Split(b)
    ensures a == b
  {
    JoinSplit(a);
    JoinSplit(b);
  }

  // ----- prefixes and suffixes at label boundaries -----

  predicate HasPrefix(s: string, p: string) {
    p <= s
  }

  predicate HasSuffix(s: string, t: string) {
    |t| <= |s| && s[|s| - |t|..] == t
  }

  function TrimSuffix(s: string, t: string): string {
    if HasSuffix(s, t) then s[..|s| - |t|] else s
  }

  function TrimPrefix(s: string, p: string): string {
    if HasPrefix(s, p) then s[|p|..] else s
  }

  /** name equals anc, or is one of its subdomains: the subtree a plain line covers. */
  predicate AtOrBelow(name: string, anc: string) {
    name == anc || HasSuffix(name, "." + anc)
  }

  predicate StrictlyBelow(name: string, anc: string) {
    HasSuffix(name, "." + anc)
  }

  /** The labels of `anc` are the last labels of `name`. */
  predicate LabelSuffix<T(==)>(anc: seq<T>, name: seq<T>) {
    |anc| <= |name| && name[|name| - |anc|..] == anc
  }

  lemma BelowHasMoreLabels(name: string, anc: string)
    requires StrictlyBelow(name, anc)
    ensures |Split(anc)| < |Split(name)| && LabelSuffix(Split(anc), Split(name))
  {
    var x := name[..|name| - |anc| - 1];
    assert name == x + ("." + anc) == x + "." + anc;
    SplitAtDot(x, anc);
  }

  lemma SubdomainIsBelow(x: string, anc: string)
    ensures StrictlyBelow(x + "." + anc, anc)
  {
    assert x + "." + anc == x + ("." + anc);
  }

  lemma FrontLabels<T>(name: seq<T>, anc: seq<T>)
    requires LabelSuffix(anc, name)
    ensures name == name[..|name| - |anc|] + anc
  {
  }

  lemma MoreLabelsIsBelow(name: string, anc: string)
    requires |Split(anc)| < |Split(name)| && LabelSuffix(Split(anc), Split(name))
    ensures StrictlyBelow(name, anc)
  {
    var front := Split(name)[..|Split(name)| - |Split(anc)|];
    FrontLabels(Split(name), Split(anc));
    JoinConcat(front, Split(anc));
    JoinSplit(name);
    JoinSplit(anc);
    SubdomainIsBelow(Join(front), anc);
  }

  lemma StrictlyBelowLabels(name: string, anc: string)
    ensures StrictlyBelow(name, anc) <==> |Split(anc)| < |Split(name)| && LabelSuffix(Split(anc), Split(name))
  {
    if StrictlyBelow(name, anc) { BelowHasMoreLabels(name, anc); }
    if |Split(anc)| < |Split(name)| && LabelSuffix(Split(anc), Split(name)) { MoreLabelsIsBelow(name, anc); }
  }

  /** The string test on a dot boundary is exactly the label-wise ancestor relation. */
  lemma AtOrBelowLabels(name: string, anc: string)
    ensures AtOrBelow(name, anc) <==> LabelSuffix(Split(anc), Split(name))
  {
    StrictlyBelowLabels(name, anc);
    if LabelSuffix(Split(anc), Split(name)) && |Split(anc)| == |Split(name)| {
      SplitInjective(name, anc);
    }
  }

  lemma LabelPrefix(s: string, p: string)
    ensures HasPrefix(s, p + ".") <==> Split(p) < Split(s)
  {
    if HasPrefix(s, p + ".") {
      var x := s[|p| + 1..];
      assert s == p + "." + x;
      SplitAtDot(p, x);
    }
    if Split(p) < Split(s) {
      var back := Split(s)[|Split(p)|..];
      assert Split(s) == Split(p) + back;
      JoinConcat(Split(p), back);
      JoinSplit(s);
      JoinSplit(p);
      assert s == (p + ".") + Join(back);
    }
  }

  // ----- label reversal -----

  function Reverse<T>(s: seq<T>): (r: seq<T>)
    ensures |r| == |s|
    ensures forall i :: 0 <= i < |s| ==> r[i] == s[|s| - 1 - i]
  {
    if s == [] then [] else Reverse(s[1..]) + [s[0]]
  }

  lemma ReverseTwice<T>(s: seq<T>)
    ensures Reverse(Reverse(s)) == s
  {
  }

  /** "evil.example.com" becomes "com.example.evil". */
  function ReverseLabels(d: string): string {
    Join(Reverse(Split(d)))
  }

  lemma SplitReverseLabels(d: string)
    ensures Split(ReverseLabels(d)) == Reverse(Split(d))
  {
    SplitJoin(Reverse(Split(d)));
  }

  /** Reversing the labels twice gives the name back, so reversal loses nothing. */
  lemma ReverseLabelsInvolution(d: string)
    ensures ReverseLabels(ReverseLabels(d)) == d
  {
    SplitReverseLabels(d);
    ReverseTwice(Split(d));
    JoinSplit(d);
  }

  lemma ReverseLabelsInjective(a: string, b: string)
    requires ReverseLabels(a) == ReverseLabels(b)
    ensures a == b
  {
    ReverseLabelsInvolution(a);
    ReverseLabelsInvolution(b);
  }

  lemma ReverseLabelsEmpty(d: string)
    ensures ReverseLabels(d) == [] <==> d == []
  {
    assert Split("") == [""];
    assert Reverse<string>([""]) == [""];
    if ReverseLabels(d) == [] { ReverseLabelsInvolution(d); }
  }

  lemma ReversedPrefixIsSuffix<T>(name: seq<T>, anc: seq<T>)
    ensures Reverse(anc) <= Reverse(name) <==> LabelSuffix(anc, name)
  {
    var rn, ra := Reverse(name), Reverse(anc);
    if ra <= rn {
      forall i | 0 <= i < |anc| ensures name[|name| - |anc|..][i] == anc[i] {
        assert ra[|anc| - 1 - i] == rn[|anc| - 1 - i];
      }
    }
    if LabelSuffix(anc, name) {
      forall i | 0 <= i < |anc| ensures ra[i] == rn[i] {
        assert anc[|anc| - 1 - i] == name[|name| - |anc|..][|anc| - 1 - i];
      }
    }
  }

  /** A prefix ending at a dot of the reversed name is an ancestor of the name. */
  lemma ReversedPrefixIsAncestor(name: string, anc: string)
    ensures HasPrefix(ReverseLabels(name), ReverseLabels(anc) + ".") <==> StrictlyBelow(name, anc)
  {
    LabelPrefix(ReverseLabels(name), ReverseLabels(anc));
    SplitReverseLabels(name);
    SplitReverseLabels(anc);
    ReversedPrefixIsSuffix(Split(name), Split(anc));
    StrictlyBelowLabels(name, anc);
  }

  lemma AtOrBelowTransitive(x: string, y: string, z: string)
    requires AtOrBelow(x, y) && AtOrBelow(y, z)
    ensures AtOrBelow(x, z)
  {
    if x != y && y != z {
      var u, v := x[..|x| - |y| - 1], y[..|y| - |z| - 1];
      assert x == u + "." + y && y == v + "." + z;
      assert x == (u + "." + v) + ("." + z);
    }
  }

  /** Two ancestors of one name are related, and the shorter one is the higher one. */
  lemma CommonDescendant(d: string, a: string, b: string)
    requires AtOrBelow(d, a) && AtOrBelow(d, b) && |a| <= |b|
    ensures AtOrBelow(b, a)
  {
    if d != b && |a| < |b| {
      var n := |d|;
      assert d[n - |b|..] == d[n - |b| - 1..][1..];
      assert b == d[n - |b|..];
      assert d[n - |a| - 1..] == "." + a;
      assert b[|b| - |a| - 1..] == d[n - |a| - 1..];
    } else if d != b {
      assert b == d[|d| - |b| - 1..][1..];
      assert d != a;
      assert a == d[|d| - |a| - 1..][1..];
    }
  }

  // ----- white space at the ends -----

  /** unicode.IsSpace. */
  predicate IsSpace(c: char) {
    var n := c as int;
    || 0x09 <= n <= 0x0D || n == 0x20 || n == 0x85 || n == 0xA0 || n == 0x1680
    || 0x2000 <= n <= 0x200A || n == 0x2028 || n == 0x2029 || n == 0x202F || n == 0x205F || n == 0x3000
  }

  function TrimLeft(s: string): string {
    if s != [] && IsSpace(s[0]) then TrimLeft(s[1..]) else s
  }

  function TrimRight(s: string): string {
    if s != [] && IsSpace(s[|s| - 1]) then TrimRight(s[..|s| - 1]) else s
  }

  function TrimSpace(s: string): string {
    TrimRight(TrimLeft(s))
  }

  lemma TrimNothing(s: string)
    requires s != "" && !IsSpace(s[0]) && !IsSpace(s[|s| - 1])
    ensures TrimSpace(s) == s
  {
  }

  lemma {:induction false} TrimShortens(s: string)
    ensures |TrimLeft(s)| <= |s| && |TrimRight(s)| <= |s|
  {
    if s != [] {
      TrimShortens(s[1..]);
      TrimShortens(s[..|s| - 1]);
    }
  }

  /** Nothing is trimmed exactly when neither end is white space. */
  lemma NothingTrimmed(s: string)
    requires s != ""
    ensures TrimSpace(s) == s <==> !IsSpace(s[0]) && !IsSpace(s[|s| - 1])
  {
    TrimShortens(s);
    TrimShortens(s[1..]);
    TrimShortens(TrimLeft(s));
    TrimShortens(s[..|s| - 1]);
    if IsSpace(s[0]) {
      assert |TrimLeft(s)| < |s|;
    } else {
      assert TrimLeft(s) == s;
    }
  }
}
