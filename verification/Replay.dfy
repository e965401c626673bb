/** Stream events may arrive out of order and more than once: what the tables converge to,
    and what a deletion or a merge guarantees afterwards. */
module Replay {
  import opened Rules
  import opened Tables
  import opened TableFacts
  import opened TableRuns

  predicate IsEvent(s: Step, src: Source) {
    s.Upsert? && s.src == src
  }

  /** The indicators this stream delivered, without order or multiplicity. */
  ghost function EventSet(steps: seq<Step>, src: Source): set<Indicator> {
    set s | s in steps && IsEvent(s, src) :: s.rec
  }

  predicate Writable(rec: Indicator, src: Source) {
    rec.stixId != "" && |rec.rules| > 0 && rec.modified.Some? && ConfidenceFor(src, rec) <= 100
  }

  /** Each STIX id has a fixed rule set, disjoint from the others', and one version per
      modification stamp. */
  ghost predicate Consistent(events: set<Indicator>, src: Source) {
    && (forall e :: e in events ==> Writable(e, src))
    && (forall e, f :: e in events && f in events ==> Compatible(e, f))
  }

  ghost predicate Compatible(e: Indicator, f: Indicator) {
    if e.stixId == f.stixId then
      (forall r :: r in e.rules <==> r in f.rules) && (e.modified == f.modified ==> e == f)
    else
      forall r :: r in e.rules ==> r !in f.rules
  }

  /** Whatever other sources do, this source only upserts. */
  ghost predicate OnlyEvents(steps: seq<Step>, src: Source) {
    forall s :: s in steps && Owner(s) == src.id ==> IsEvent(s, src)
  }

  lemma EventSetAppend(steps: seq<Step>, s: Step, src: Source)
    ensures EventSet(steps + [s], src) == EventSet(steps, src) + if IsEvent(s, src) then {s.rec} else {}
  {
    assert forall x :: x in steps + [s] <==> x in steps || x == s;
  }

  lemma ConsistentSubset(small: set<Indicator>, big: set<Indicator>, src: Source)
    requires small <= big && Consistent(big, src)
    ensures Consistent(small, src)
  {
  }

  lemma PrefixIsEvents(front: seq<Step>, s: Step, src: Source)
    requires OnlyEvents(front + [s], src) && Consistent(EventSet(front + [s], src), src)
    ensures OnlyEvents(front, src) && Consistent(EventSet(front, src), src)
    ensures Owner(s) == src.id ==> IsEvent(s, src) && Consistent(EventSet(front, src) + {s.rec}, src)
  {
    EventSetAppend(front, s, src);
    ConsistentSubset(EventSet(front, src), EventSet(front + [s], src), src);
    assert s in front + [s];
    assert forall x :: x in front ==> x in front + [s];
  }

  /** The event with the greatest stamp among those that name the rule. */
  function Winner(steps: seq<Step>, src: Source, r: Rule): Option<Indicator> {
    if steps == [] then None
    else
      var w, s := Winner(steps[..|steps| - 1], src, r), steps[|steps| - 1];
      if IsEvent(s, src) && r in s.rec.rules && (w.None? || Newer(s.rec, w.value)) then Some(s.rec) else w
  }

  predicate Newer(e: Indicator, f: Indicator) {
    e.modified.Some? && f.modified.Some? && e.modified.value > f.modified.value
  }

  lemma {:induction false} WinnerIsGreatest(steps: seq<Step>, src: Source, r: Rule)
    requires forall e :: e in EventSet(steps, src) ==> e.modified.Some?
    ensures var w := Winner(steps, src, r);
            && (w.Some? ==> w.value in EventSet(steps, src) && r in w.value.rules)
            && (forall e :: e in EventSet(steps, src) && r in e.rules ==> w.Some? && !Newer(e, w.value))
  {
    if steps != [] {
      var front, s := steps[..|steps| - 1], steps[|steps| - 1];
      assert steps == front + [s];
      EventSetAppend(front, s, src);
      WinnerIsGreatest(front, src, r);
    }
  }

  /** The columns that an event determines, for one rule. */
  ghost predicate RowMatches(db: L1, src: Source, r: Rule, w: Option<Indicator>) {
    var row := Lookup(db.sources, (r, src.id));
    match w
    case None => row == None && forall c :: Lookup(db.categories, (r, src.id, c)) == None
    case Some(e) =>
      && row.Some? && row.value.active && row.value.recordId == Some(e.stixId)
      && (row.value.revokedAt.Some? <==> e.revoked)
      && row.value.validUntil == e.validUntil && row.value.modifiedAt == e.modified
      && row.value.confidence == ConfidenceFor(src, e)
      && forall c :: Lookup(db.categories, (r, src.id, c)) == if c in CategoriesFor(src, e) then Some(ConfidenceFor(src, e)) else None
  }

  ghost predicate Matches(db: L1, src: Source, steps: seq<Step>) {
    forall r :: RowMatches(db, src, r, Winner(steps, src, r))
  }

  /** No row of this source yet. */
  ghost predicate Untouched(db: L1, src: Source) {
    forall r :: RowMatches(db, src, r, None)
  }

  /** All rules of one indicator always have the same winner. */
  lemma {:induction false} SiblingsShareWinner(steps: seq<Step>, src: Source, e: Indicator, r1: Rule, r2: Rule)
    requires forall f :: f in EventSet(steps, src) ==> Compatible(e, f)
    requires r1 in e.rules && r2 in e.rules
    ensures Winner(steps, src, r1) == Winner(steps, src, r2)
  {
    if steps != [] {
      var front, s := steps[..|steps| - 1], steps[|steps| - 1];
      assert steps == front + [s];
      SiblingsShareWinner(front, src, e, r1, r2);
      if IsEvent(s, src) { assert s.rec in EventSet(steps, src); }
    }
  }

  /** The staleness test against the table agrees with the winner so far. */
  lemma StaleExactlyWhenNotNewer(db: L1, steps: seq<Step>, src: Source, e: Indicator, r: Rule)
    requires Matches(db, src, steps)
    requires Consistent(EventSet(steps, src) + {e}, src) && r in e.rules
    ensures var w := Winner(steps, src, r);
            IsStale(db.sources, src.id, e.stixId, e.modified.value) <==> w.Some? && !Newer(e, w.value)
  {
    var w := Winner(steps, src, r);
    WinnerIsGreatest(steps, src, r);
    assert e in EventSet(steps, src) + {e};
    assert RowMatches(db, src, r, w);
    if IsStale(db.sources, src.id, e.stixId, e.modified.value) {
      var k :| k in db.sources && k.1 == src.id && db.sources[k].recordId == Some(e.stixId)
               && db.sources[k].modifiedAt.Some? && e.modified.value <= db.sources[k].modifiedAt.value;
      assert k == (k.0, src.id);
      WinnerIsGreatest(steps, src, k.0);
      assert RowMatches(db, src, k.0, Winner(steps, src, k.0));
      assert k.0 in e.rules;
      SiblingsShareWinner(steps, src, e, r, k.0);
    }
    if w.Some? && !Newer(e, w.value) {
      assert (r, src.id) in db.sources;
      assert Compatible(e, w.value);
      assert db.sources[(r, src.id)].recordId == Some(e.stixId);
    }
  }

  lemma EventKeepsMatches(db: L1, steps: seq<Step>, src: Source, s: Step)
    requires Matches(db, src, steps) && IsEvent(s, src)
    requires Consistent(EventSet(steps, src) + {s.rec}, src)
    ensures Matches(After(db, s), src, steps + [s])
  {
    var e := s.rec;
    assert e in EventSet(steps, src) + {e};
    var r0 := e.rules[0];
    StaleExactlyWhenNotNewer(db, steps, src, e, r0);
    forall r ensures RowMatches(After(db, s), src, r, Winner(steps + [s], src, r)) {
      assert (steps + [s])[..|steps|] == steps;
      assert RowMatches(db, src, r, Winner(steps, src, r));
      if r in e.rules { SiblingsShareWinner(steps, src, e, r, r0); }
      if UpsertDecision(db, src, e) == Done {
        SourceAfterUpsert(db, src, e, s.now, e.rules, (r, src.id));
        forall c ensures Lookup(After(db, s).categories, (r, src.id, c)) ==
                         if r in e.rules then if c in CategoriesFor(src, e) then Some(ConfidenceFor(src, e)) else None
                         else Lookup(db.categories, (r, src.id, c))
        {
          CategoryAfterUpsert(db, src, e, s.now, e.rules, (r, src.id, c));
        }
      }
    }
  }

  lemma OtherStepKeepsMatches(db: L1, steps: seq<Step>, src: Source, s: Step)
    requires Matches(db, src, steps) && Owner(s) != src.id
    ensures Matches(After(db, s), src, steps + [s])
  {
    StepsOwnTheirRows(db, s);
    forall r ensures RowMatches(After(db, s), src, r, Winner(steps + [s], src, r)) {
      assert (steps + [s])[..|steps|] == steps;
      assert RowMatches(db, src, r, Winner(steps, src, r));
    }
  }

  /** After any sequence of events, in any order and with any repetitions, interleaved with
      any steps of other sources, every row shows its greatest-stamped event. */
  lemma {:induction false} RowsShowTheirNewestEvent(db: L1, steps: seq<Step>, src: Source)
    requires Untouched(db, src) && OnlyEvents(steps, src) && Consistent(EventSet(steps, src), src)
    ensures Matches(AfterRun(db, steps), src, steps)
  {
    if steps != [] {
      var front, s := steps[..|steps| - 1], steps[|steps| - 1];
      assert steps == front + [s];
      PrefixIsEvents(front, s, src);
      RowsShowTheirNewestEvent(db, front, src);
      if Owner(s) == src.id {
        EventKeepsMatches(AfterRun(db, front), front, src, s);
      } else {
        OtherStepKeepsMatches(AfterRun(db, front), front, src, s);
      }
    }
  }

  lemma WinnerDependsOnSet(s1: seq<Step>, s2: seq<Step>, src: Source, r: Rule)
    requires EventSet(s1, src) == EventSet(s2, src) && Consistent(EventSet(s1, src), src)
    ensures Winner(s1, src, r) == Winner(s2, src, r)
  {
    WinnerIsGreatest(s1, src, r);
    WinnerIsGreatest(s2, src, r);
    var w1, w2 := Winner(s1, src, r), Winner(s2, src, r);
    if w1.Some? && w2.Some? { assert Compatible(w1.value, w2.value); }
  }

  /** Replay convergence: two runs that deliver the same set of events agree on every row's
      id, revocation, expiry, confidence, stamp and categories. */
  lemma ReplayConverges(db1: L1, s1: seq<Step>, db2: L1, s2: seq<Step>, src: Source, r: Rule)
    requires Untouched(db1, src) && OnlyEvents(s1, src) && Untouched(db2, src) && OnlyEvents(s2, src)
    requires EventSet(s1, src) == EventSet(s2, src) && Consistent(EventSet(s1, src), src)
    ensures Winner(s1, src, r) == Winner(s2, src, r)
    ensures RowMatches(AfterRun(db1, s1), src, r, Winner(s1, src, r))
    ensures RowMatches(AfterRun(db2, s2), src, r, Winner(s1, src, r))
  {
    RowsShowTheirNewestEvent(db1, s1, src);
    RowsShowTheirNewestEvent(db2, s2, src);
    WinnerDependsOnSet(s1, s2, src, r);
  }

  // ----- after a deletion -----

  /** A later step that says nothing newer about the deleted indicator: its own events are no
      newer than the stored stamp, and other indicators do not name its rules. */
  ghost predicate NothingNewer(s: Step, db: L1, src: Source, stixId: string, stamp: int) {
    Owner(s) == src.id ==>
      || s.Delete?
      || (&& IsEvent(s, src)
          && (s.rec.stixId == stixId ==> s.rec.modified.Some? && s.rec.modified.value <= stamp)
          && (s.rec.stixId != stixId ==> forall k :: k in db.sources && Carries(k, db.sources[k], src.id, {stixId}) ==> k.0 !in s.rec.rules))
  }

  ghost predicate Frozen(after: L1, db: L1, source: int, stixId: string) {
    forall k :: k in db.sources && Carries(k, db.sources[k], source, {stixId}) ==>
      Lookup(after.sources, k) == Some(db.sources[k].(active := false, revokedAt := None))
  }

  /** A deleted indicator stays deleted: no replayed event with an old stamp, and no other
      source, reactivates its rows or brings its veto back. */
  lemma {:induction false} DeletedStaysDeleted(db: L1, src: Source, stixId: string, top: SourceKey, steps: seq<Step>)
    requires top in db.sources && Carries(top, db.sources[top], src.id, {stixId}) && db.sources[top].modifiedAt.Some?
    requires forall s :: s in steps ==> NothingNewer(s, db, src, stixId, db.sources[top].modifiedAt.value)
    ensures Frozen(AfterRun(Deleted(db, src.id, stixId), steps), db, src.id, stixId)
  {
    if steps != [] {
      var front, s := steps[..|steps| - 1], steps[|steps| - 1];
      assert s in steps;
      DeletedStaysDeleted(db, src, stixId, top, front);
      var before := AfterRun(Deleted(db, src.id, stixId), front);
      FrozenStep(before, db, src, stixId, top, s);
    }
  }

  lemma FrozenStep(before: L1, db: L1, src: Source, stixId: string, top: SourceKey, s: Step)
    requires top in db.sources && Carries(top, db.sources[top], src.id, {stixId}) && db.sources[top].modifiedAt.Some?
    requires Frozen(before, db, src.id, stixId)
    requires NothingNewer(s, db, src, stixId, db.sources[top].modifiedAt.value)
    ensures Frozen(After(before, s), db, src.id, stixId)
  {
    assert Lookup(before.sources, top).Some?;
    StepsOwnTheirRows(before, s);
    forall k | k in db.sources && Carries(k, db.sources[k], src.id, {stixId})
      ensures Lookup(After(before, s).sources, k) == Lookup(before.sources, k)
    {
      assert Lookup(before.sources, k).Some?;
      if IsEvent(s, src) {
        if s.rec.stixId == stixId {
          assert before.sources[top].recordId == Some(stixId);
        } else {
          SourceAfterUpsert(before, src, s.rec, s.now, s.rec.rules, k);
        }
      }
    }
  }

  // ----- merges -----

  function Ids(from: seq<string>): set<string> {
    set f | f in from
  }

  /** A (domain, source) pair has one row, so the cleanup DELETE can only hit a row that is
      its own duplicate. */
  lemma DropsOnlyItself(sources: map<SourceKey, SourceRow>, k: SourceKey, source: int, from: seq<string>, to: string)
    ensures MergeDrops(sources, k, source, Ids(from), to) <==>
            k in sources && k.1 == source && sources[k].recordId == Some(to) && to in from
  {
    if MergeDrops(sources, k, source, Ids(from), to) {
      var keep :| keep in sources && keep.1 == k.1 && keep.0 == k.0 && sources[keep].recordId == Some(to);
      assert keep == (k.0, k.1) == k;
    }
  }

  /** Merging keeps every row, its flags and its categories, and leaves no old id behind. */
  lemma MergeConservesRows(db: L1, source: int, from: seq<string>, to: string)
    requires to !in from && to != "" && from != []
    ensures var after := Merged(db, source, from, to);
            && after.domains == db.domains && after.categories == db.categories && after.evidence == db.evidence
            && after.sources.Keys == db.sources.Keys
            && forall k :: k in db.sources ==>
                 after.sources[k] == db.sources[k].(recordId := if Carries(k, db.sources[k], source, Ids(from)) then Some(to) else db.sources[k].recordId)
    ensures var after := Merged(db, source, from, to);
            forall k :: k in after.sources ==> !Carries(k, after.sources[k], source, Ids(from))
  {
    forall k ensures !MergeDrops(db.sources, k, source, Ids(from), to) { DropsOnlyItself(db.sources, k, source, from, to); }
    assert Ids(from) == set f | f in from;
    assert Merged(db, source, from, to).categories == db.categories;
  }

  /** A deletion of the surviving id then reaches exactly the rows of all merged ids. */
  lemma DeleteAfterMerge(db: L1, source: int, from: seq<string>, to: string, k: SourceKey)
    requires to !in from && to != "" && from != []
    ensures Lookup(Deleted(Merged(db, source, from, to), source, to).sources, k) ==
            if k in db.sources && Carries(k, db.sources[k], source, Ids(from) + {to})
            then Some(db.sources[k].(recordId := Some(to), active := false, revokedAt := None))
            else Lookup(db.sources, k)
  {
    MergeConservesRows(db, source, from, to);
  }

  /** Exactly when a merge loses rows: when an id is merged into itself while rows carry it. */
  lemma MergeLosesRowsIff(db: L1, source: int, from: seq<string>, to: string)
    requires to != "" && from != []
    ensures Merged(db, source, from, to).sources.Keys == db.sources.Keys <==>
            !(to in from && exists k :: k in db.sources && k.1 == source && db.sources[k].recordId == Some(to))
  {
    var after := Merged(db, source, from, to);
    assert Ids(from) == set f | f in from;
    forall k ensures k in after.sources <==> k in db.sources && !(k.1 == source && db.sources[k].recordId == Some(to) && to in from) {
      DropsOnlyItself(db.sources, k, source, from, to);
    }
    if to in from {
      if k :| k in db.sources && k.1 == source && db.sources[k].recordId == Some(to) {
        assert k !in after.sources.Keys && k in db.sources.Keys;
      }
    }
  }
}
