/** The grace period, over whole runs of imports. */
module Grace {
  import opened Rules
  import opened Tables
  import opened TableFacts
  import opened TableRuns

  /** Every step of this source is an import with the same grace period, and its imports do
      not go back in time. Steps of other sources are unrestricted. */
  ghost predicate ImportsOf(steps: seq<Step>, source: int, grace: int) {
    && (forall s :: s in steps && Owner(s) == source ==> s.Apply? && s.src.gracePeriod == grace)
    && (forall i, j :: 0 <= i < j < |steps| && Owner(steps[i]) == source && Owner(steps[j]) == source
          ==> steps[i].Apply? && steps[j].Apply? && steps[i].now <= steps[j].now)
  }

  predicate Lists(s: Step, source: int, r: Rule) {
    Owner(s) == source && s.Apply? && r in Staging(s.records)
  }

  /** When the source last listed the rule. */
  function LastListed(steps: seq<Step>, source: int, r: Rule): Option<int> {
    if steps == [] then None
    else
      var s := steps[|steps| - 1];
      if Lists(s, source, r) then Some(s.now) else LastListed(steps[..|steps| - 1], source, r)
  }

  /** When the source was last imported. */
  function LastImport(steps: seq<Step>, source: int): Option<int> {
    if steps == [] then None
    else
      var s := steps[|steps| - 1];
      if Owner(s) == source && s.Apply? then Some(s.now) else LastImport(steps[..|steps| - 1], source)
  }

  lemma {:induction false} LastImportIsEarlier(steps: seq<Step>, source: int, now: int)
    requires forall s :: s in steps && Owner(s) == source ==> s.Apply? && s.now <= now
    ensures LastImport(steps, source).Some? ==> LastImport(steps, source).value <= now
  {
    if steps != [] {
      assert steps[|steps| - 1] in steps;
      LastImportIsEarlier(steps[..|steps| - 1], source, now);
    }
  }

  lemma {:induction false} LastListedIsEarlier(steps: seq<Step>, source: int, r: Rule, now: int)
    requires forall s :: s in steps && Owner(s) == source ==> s.Apply? && s.now <= now
    ensures LastListed(steps, source, r).Some? ==> LastListed(steps, source, r).value <= now
  {
    if steps != [] {
      assert steps[|steps| - 1] in steps;
      LastListedIsEarlier(steps[..|steps| - 1], source, r, now);
    }
  }

  lemma {:induction false} ListedMeansImported(steps: seq<Step>, source: int, r: Rule)
    ensures LastListed(steps, source, r).Some? ==> LastImport(steps, source).Some?
  {
    if steps != [] { ListedMeansImported(steps[..|steps| - 1], source, r); }
  }

  lemma ImportsOfInit(front: seq<Step>, s: Step, source: int, grace: int)
    requires ImportsOf(front + [s], source, grace)
    ensures ImportsOf(front, source, grace)
    ensures Owner(s) == source ==> s.Apply? && s.src.gracePeriod == grace
    ensures forall x :: x in front && Owner(x) == source ==> x.Apply? && (Owner(s) == source ==> x.now <= s.now)
  {
    var steps := front + [s];
    assert s in steps;
    assert forall i :: 0 <= i < |front| ==> steps[i] == front[i];
    forall x | x in front && Owner(x) == source ensures x.Apply? && (Owner(s) == source ==> x.now <= s.now) {
      assert x in steps;
      var i :| 0 <= i < |front| && front[i] == x;
      assert steps[i] == x && steps[|front|] == s;
    }
    assert forall x :: x in front ==> x in steps;
  }

  /** After any run, whatever other sources did in between: the source has a row for a rule
      exactly when it ever listed it, the row remembers the last listing, and it is active
      exactly when that listing is at most a grace period older than the last import. The
      equivalence holds for negative grace periods too. */
  lemma {:induction false} GracePeriodOverRuns(steps: seq<Step>, source: int, grace: int, r: Rule)
    requires ImportsOf(steps, source, grace)
    ensures var row, listed := Lookup(AfterRun(EMPTY, steps).sources, (r, source)), LastListed(steps, source, r);
            && (row.Some? <==> listed.Some?)
            && (row.Some? ==> row.value.lastSeen == listed.value)
            && (row.Some? ==> LastImport(steps, source).Some?)
            && (row.Some? ==> (row.value.active <==> listed.value >= LastImport(steps, source).value - grace))
  {
    ListedMeansImported(steps, source, r);
    if steps != [] {
      var front, s := steps[..|steps| - 1], steps[|steps| - 1];
      assert steps == front + [s];
      ImportsOfInit(front, s, source, grace);
      GracePeriodOverRuns(front, source, grace, r);
      ListedMeansImported(front, source, r);
      var before := AfterRun(EMPTY, front);
      if Owner(s) == source {
        LastImportIsEarlier(front, source, s.now);
        LastListedIsEarlier(front, source, r, s.now);
        SourceAfterImport(before.sources, Staging(s.records), s.src, s.now, (r, source));
      } else {
        StepsOwnTheirRows(before, s);
      }
    }
  }
}
