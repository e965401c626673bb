/** The L1 tables as a transition system: what every step keeps, and which steps commute. */
module TableRuns {
  import opened Rules
  import opened Tables
  import opened TableFacts

  datatype Step =
    | Apply(src: Source, importId: int, feedHash: string, records: seq<Record>, now: int)
    | Upsert(src: Source, rec: Indicator, now: int)
    | Delete(source: int, stixId: string)
    | Merge(source: int, from: seq<string>, to: string)

  function After(db: L1, s: Step): L1 {
    match s
    case Apply(src, importId, feedHash, records, now) => Applied(db, src, importId, feedHash, records, now)
    case Upsert(src, rec, now) => Upserted(db, src, rec, now)
    case Delete(source, stixId) => Deleted(db, source, stixId)
    case Merge(source, from, to) => Merged(db, source, from, to)
  }

  function AfterRun(db: L1, steps: seq<Step>): L1 {
    if steps == [] then db else After(AfterRun(db, steps[..|steps| - 1]), steps[|steps| - 1])
  }

  /** The one source whose rows this step may write. */
  function Owner(s: Step): int {
    if s.Apply? || s.Upsert? then s.src.id else s.source
  }

  // ----- the invariant -----

  /** Foreign keys hold, and an active source row implies an active domain. */
  ghost predicate Inv(db: L1) {
    && (forall k :: k in db.sources ==> k.0 in db.domains)
    && (forall k :: k in db.sources && db.sources[k].active ==> db.domains[k.0].active)
    && (forall k :: k in db.categories ==> (k.0, k.1) in db.sources)
  }

  /** A domain is active exactly when some source row still asserts it. */
  ghost predicate ActivityExact(db: L1) {
    forall r :: r in db.domains ==> (db.domains[r].active <==> HasActiveSource(db.sources, r))
  }

  /** After an import every source row, category and domain is where the invariant wants it. */
  lemma ApplyKeepsSourceRows(db: L1, src: Source, importId: int, feedHash: string, st: map<Rule, Record>, now: int, k: SourceKey)
    requires Inv(db) && k in AppliedStaged(db, src, importId, feedHash, st, now).sources
    ensures k.0 in AppliedStaged(db, src, importId, feedHash, st, now).domains
  {
    SourceAfterImport(db.sources, st, src, now, k);
    DomainAfterImport(db, st, src, importId, feedHash, now, k.0);
  }

  lemma ApplyMakesActivityExact(db: L1, src: Source, importId: int, feedHash: string, st: map<Rule, Record>, now: int, r: Rule)
    requires Inv(db) && r in AppliedStaged(db, src, importId, feedHash, st, now).domains
    ensures var after := AppliedStaged(db, src, importId, feedHash, st, now);
            after.domains[r].active <==> HasActiveSource(after.sources, r)
  {
    var after := AppliedStaged(db, src, importId, feedHash, st, now);
    DomainAfterImport(db, st, src, importId, feedHash, now, r);
    forall k | k in after.sources && k.0 == r && after.sources[k].active ensures r in st || (r in db.domains && db.domains[r].active) {
      SourceAfterImport(db.sources, st, src, now, k);
    }
  }

  lemma ApplyKeepsInv(db: L1, src: Source, importId: int, feedHash: string, st: map<Rule, Record>, now: int)
    requires Inv(db)
    ensures Inv(AppliedStaged(db, src, importId, feedHash, st, now))
    ensures ActivityExact(AppliedStaged(db, src, importId, feedHash, st, now))
  {
    var after := AppliedStaged(db, src, importId, feedHash, st, now);
    forall k | k in after.sources ensures k.0 in after.domains {
      ApplyKeepsSourceRows(db, src, importId, feedHash, st, now, k);
    }
    forall r | r in after.domains ensures after.domains[r].active <==> HasActiveSource(after.sources, r) {
      ApplyMakesActivityExact(db, src, importId, feedHash, st, now, r);
    }
    forall k | k in after.categories ensures (k.0, k.1) in after.sources {
      CategoryAfterImport(db.categories, st, src, k);
      SourceAfterImport(db.sources, st, src, now, (k.0, k.1));
    }
  }

  lemma UpsertKeepsInv(db: L1, src: Source, rec: Indicator, now: int, rules: seq<Rule>)
    requires Inv(db)
    ensures Inv(UpsertRules(db, src, rec, now, rules))
  {
    var after := UpsertRules(db, src, rec, now, rules);
    forall k | k in after.sources ensures k.0 in after.domains && (after.sources[k].active ==> after.domains[k.0].active) {
      SourceAfterUpsert(db, src, rec, now, rules, k);
      DomainAfterUpsert(db, src, rec, now, rules, k.0);
    }
    forall k | k in after.categories ensures (k.0, k.1) in after.sources {
      CategoryAfterUpsert(db, src, rec, now, rules, k);
      SourceAfterUpsert(db, src, rec, now, rules, (k.0, k.1));
    }
  }

  lemma StepKeepsInv(db: L1, s: Step)
    requires Inv(db)
    ensures Inv(After(db, s))
  {
    match s
    case Apply(src, importId, feedHash, records, now) => ApplyKeepsInv(db, src, importId, feedHash, Staging(records), now);
    case Upsert(src, rec, now) => UpsertKeepsInv(db, src, rec, now, rec.rules);
    case Delete(_, _) =>
    case Merge(_, _, _) =>
  }

  /** In every state reachable from empty tables: an active source row implies an active
      domain, and right after an import a domain is active iff some source row is. */
  lemma {:induction false} ActivityOverRuns(steps: seq<Step>)
    ensures Inv(AfterRun(EMPTY, steps))
    ensures steps != [] && steps[|steps| - 1].Apply? ==> ActivityExact(AfterRun(EMPTY, steps))
  {
    if steps != [] {
      var front, s := steps[..|steps| - 1], steps[|steps| - 1];
      ActivityOverRuns(front);
      StepKeepsInv(AfterRun(EMPTY, front), s);
      if s.Apply? {
        ApplyKeepsInv(AfterRun(EMPTY, front), s.src, s.importId, s.feedHash, Staging(s.records), s.now);
      }
    }
  }

  // ----- ownership, and the append-only table -----

  /** No step touches another source's rows, categories or evidence, and evidence only grows. */
  lemma StepsOwnTheirRows(db: L1, s: Step)
    ensures forall k: SourceKey :: k.1 != Owner(s) ==> Lookup(After(db, s).sources, k) == Lookup(db.sources, k)
    ensures forall k: CategoryKey :: k.1 != Owner(s) ==> Lookup(After(db, s).categories, k) == Lookup(db.categories, k)
    ensures db.evidence <= After(db, s).evidence
    ensures forall e :: e in After(db, s).evidence - db.evidence ==> e.source == Owner(s)
  {
    match s
    case Apply(src, importId, feedHash, records, now) =>
      var st := Staging(records);
      forall k: SourceKey | k.1 != src.id ensures Lookup(After(db, s).sources, k) == Lookup(db.sources, k) { SourceAfterImport(db.sources, st, src, now, k); }
      forall k: CategoryKey | k.1 != src.id ensures Lookup(After(db, s).categories, k) == Lookup(db.categories, k) { CategoryAfterImport(db.categories, st, src, k); }
      EvidenceOfImportIsOwn(db.evidence, st, src, importId, feedHash, now);
    case Upsert(src, rec, now) =>
      forall k: SourceKey | k.1 != src.id ensures Lookup(After(db, s).sources, k) == Lookup(db.sources, k) { SourceAfterUpsert(db, src, rec, now, rec.rules, k); }
      forall k: CategoryKey | k.1 != src.id ensures Lookup(After(db, s).categories, k) == Lookup(db.categories, k) { CategoryAfterUpsert(db, src, rec, now, rec.rules, k); }
      EvidenceOfUpsertIsOwn(db, src, rec, now, rec.rules);
    case Delete(_, _) =>
    case Merge(_, _, _) =>
  }

  lemma {:induction false} EvidenceNeverShrinks(db: L1, steps: seq<Step>, i: nat)
    requires i <= |steps|
    ensures AfterRun(db, steps[..i]).evidence <= AfterRun(db, steps).evidence
  {
    if i == |steps| {
      assert steps[..i] == steps;
    } else {
      var front := steps[..|steps| - 1];
      assert front[..i] == steps[..i];
      EvidenceNeverShrinks(db, front, i);
      StepsOwnTheirRows(AfterRun(db, front), steps[|steps| - 1]);
    }
  }
}
