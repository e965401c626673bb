/** What Prune leaves behind. */
module Pruning {
  import opened Names
  import opened Rules
  import opened Sets
  import opened Sorting
  import opened Disks
  import opened SnapshotSets
  import opened SnapshotStores

  /** The versions newer than v. */
  function NewerThan(root: Root, v: string): set<string> {
    set w | w in VersionNames(root) && Newer(w, v)
  }

  function FirstOf(s: seq<string>, i: nat): set<string>
    requires i <= |s|
  {
    set k | 0 <= k < i :: s[k]
  }

  lemma {:induction false} FirstOfCard(s: seq<string>, i: nat)
    requires i <= |s| && forall j, k :: 0 <= j < k < |s| ==> s[j] != s[k]
    ensures |FirstOf(s, i)| == i
  {
    if i > 0 {
      FirstOfCard(s, i - 1);
      assert FirstOf(s, i) == FirstOf(s, i - 1) + {s[i - 1]};
    }
  }

  lemma NewerComeFirst(s: seq<string>, i: nat, w: string)
    requires StrictTotalOrder(Newer) && StrictlySorted(Newer, s) && i < |s|
    ensures w in s && Newer(w, s[i]) <==> w in FirstOf(s, i)
  {
    if w in s && Newer(w, s[i]) {
      var k :| 0 <= k < |s| && s[k] == w;
      assert k < i;
    }
  }

  /** The position of a version in the listing is the number of newer ones. */
  lemma PositionIsRank(root: Root, i: nat)
    requires i < |VersionsOf(root)|
    ensures |NewerThan(root, VersionsOf(root)[i])| == i
  {
    var s := VersionsOf(root);
    NewerIsTotal();
    ListingIsSorted(Newer, VersionNames(root));
    StrictIsDistinct(s);
    FirstOfCard(s, i);
    forall w ensures w in NewerThan(root, s[i]) <==> w in FirstOf(s, i) { NewerComeFirst(s, i, w); }
    assert NewerThan(root, s[i]) == FirstOf(s, i);
  }

  lemma StrictIsDistinct(s: seq<string>)
    requires StrictTotalOrder(Newer) && StrictlySorted(Newer, s)
    ensures forall j, k :: 0 <= j < k < |s| ==> s[j] != s[k]
  {
  }

  lemma {:induction false} DoomedAt(versions: seq<string>, i: nat, keep: nat, current: Option<string>, v: string)
    requires i <= |versions|
    ensures v in Doomed(versions, i, keep, current) <==>
            current != Some(v) && exists k :: keep <= k < i && versions[k] == v
  {
    if i > 0 { DoomedAt(versions, i - 1, keep, current, v); }
  }

  /** Prune removes a version exactly when `keep` or more are newer and it is not current. */
  lemma PruneTargetsExactly(root: Root, keep: nat, v: string)
    ensures v in PruneTargets(root, keep) <==>
            v in VersionNames(root) && |NewerThan(root, v)| >= keep && CurrentOf(root) != Some(v)
  {
    var s := VersionsOf(root);
    NewerIsTotal();
    ListingIsSorted(Newer, VersionNames(root));
    DoomedAt(s, |s|, keep, CurrentOf(root), v);
    if exists k :: keep <= k < |s| && s[k] == v {
      var k :| keep <= k < |s| && s[k] == v;
      PositionIsRank(root, k);
      assert s[k] in s;
    }
    if v in VersionNames(root) && |NewerThan(root, v)| >= keep {
      var k :| 0 <= k < |s| && s[k] == v;
      PositionIsRank(root, k);
    }
  }

  lemma {:induction false} RemovalsEffect(root: Root, targets: seq<string>, n: string)
    ensures var after := Run(root, Removals(targets));
            (n in after <==> n in root && n !in targets) && (n in after ==> after[n] == root[n])
  {
    if targets != [] {
      var front, v := targets[..|targets| - 1], targets[|targets| - 1];
      assert targets == front + [v];
      RemovalsEffect(root, front, n);
      assert Removals(targets) == Removals(front) + [RemoveAll(v)];
      assert Removals(targets)[..|Removals(targets)| - 1] == Removals(front);
    }
  }

  /** After a Prune that ran to its end exactly the newest `keep` versions and the current one
      are left, with their files untouched; nothing but version directories was removed. */
  lemma PruneKeepsExactly(root: Root, keep: nat, n: string)
    ensures var after := Run(root, Removals(PruneTargets(root, keep)));
            && (n in VersionNames(after) <==> n in VersionNames(root) && (|NewerThan(root, n)| < keep || CurrentOf(root) == Some(n)))
            && (n in after ==> n in root && after[n] == root[n])
            && (n in root && n !in VersionNames(root) ==> n in after)
  {
    RemovalsEffect(root, PruneTargets(root, keep), n);
    PruneTargetsExactly(root, keep, n);
  }

  /** So a version other than the newest ones survives only as the current one, and the number
      left is at most keep + 1. */
  lemma PruneBoundsTheStore(root: Root, keep: nat)
    ensures |VersionNames(Run(root, Removals(PruneTargets(root, keep))))| <= keep + 1
  {
    var after := Run(root, Removals(PruneTargets(root, keep)));
    var s := VersionsOf(root);
    var m := if keep <= |s| then keep else |s|;
    NewerIsTotal();
    ListingIsSorted(Newer, VersionNames(root));
    StrictIsDistinct(s);
    FirstOfCard(s, m);
    var extra := match CurrentOf(root) case None => {} case Some(v) => {v};
    forall n | n in VersionNames(after) ensures n in FirstOf(s, m) + extra {
      PruneKeepsExactly(root, keep, n);
      var k :| 0 <= k < |s| && s[k] == n;
      PositionIsRank(root, k);
    }
    SubsetCard(VersionNames(after), FirstOf(s, m) + extra);
  }
}
