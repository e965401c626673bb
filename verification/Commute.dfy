/** Two writers of different sources may run in either order (the shared tables are merged
    with GREATEST, LEAST and OR). raw_hash is outside the claim: the first writer wins it. */
module Commute {
  import opened Rules
  import opened Tables
  import opened TableFacts
  import opened TableRuns

  datatype DomainView = DomainView(firstSeen: int, lastSeen: int, active: bool)

  function ViewOf(row: Option<DomainRow>): Option<DomainView> {
    if row.Some? then Some(DomainView(row.value.firstSeen, row.value.lastSeen, row.value.active)) else None
  }

  /** Everything but raw_hash. */
  ghost predicate SameView(a: L1, b: L1) {
    && (forall r :: ViewOf(Lookup(a.domains, r)) == ViewOf(Lookup(b.domains, r)))
    && a.sources == b.sources && a.categories == b.categories && a.evidence == b.evidence
  }

  datatype Import = Import(src: Source, importId: int, feedHash: string, st: map<Rule, Record>, now: int)

  function Run(db: L1, i: Import): L1 {
    AppliedStaged(db, i.src, i.importId, i.feedHash, i.st, i.now)
  }

  // ----- two imports -----

  lemma ImportsCommuteOnSources(db: L1, a: Import, b: Import)
    requires a.src.id != b.src.id
    ensures Run(Run(db, a), b).sources == Run(Run(db, b), a).sources
  {
    var ab, ba := Run(Run(db, a), b).sources, Run(Run(db, b), a).sources;
    forall k ensures Lookup(ab, k) == Lookup(ba, k) {
      SourceAfterImport(db.sources, a.st, a.src, a.now, k);
      SourceAfterImport(Run(db, a).sources, b.st, b.src, b.now, k);
      SourceAfterImport(db.sources, b.st, b.src, b.now, k);
      SourceAfterImport(Run(db, b).sources, a.st, a.src, a.now, k);
    }
    SameLookups(ab, ba);
  }

  lemma OneCategoryCommutes(db: L1, a: Import, b: Import, k: CategoryKey)
    requires a.src.id != b.src.id
    ensures Lookup(Run(Run(db, a), b).categories, k) == Lookup(Run(Run(db, b), a).categories, k)
  {
    CategoryAfterImport(db.categories, a.st, a.src, k);
    CategoryAfterImport(Run(db, a).categories, b.st, b.src, k);
    CategoryAfterImport(db.categories, b.st, b.src, k);
    CategoryAfterImport(Run(db, b).categories, a.st, a.src, k);
  }

  lemma ImportsCommuteOnCategories(db: L1, a: Import, b: Import)
    requires a.src.id != b.src.id
    ensures Run(Run(db, a), b).categories == Run(Run(db, b), a).categories
  {
    var ab, ba := Run(Run(db, a), b).categories, Run(Run(db, b), a).categories;
    forall k ensures Lookup(ab, k) == Lookup(ba, k) { OneCategoryCommutes(db, a, b, k); }
    SameLookups(ab, ba);
  }

  lemma ImportsCommuteOnEvidence(db: L1, a: Import, b: Import)
    requires a.src.id != b.src.id
    ensures Run(Run(db, a), b).evidence == Run(Run(db, b), a).evidence
  {
    var e := db.evidence;
    var newA, newB := Run(db, a).evidence - e, Run(db, b).evidence - e;
    EvidenceOfImportIsOwn(e, a.st, a.src, a.importId, a.feedHash, a.now);
    EvidenceOfImportIsOwn(e, b.st, b.src, b.importId, b.feedHash, b.now);
    assert Run(db, a).evidence == e + newA && Run(db, b).evidence == e + newB;
    EvidenceFrameImport(e, newA, b.st, b.src, b.importId, b.feedHash, b.now);
    EvidenceFrameImport(e, newB, a.st, a.src, a.importId, a.feedHash, a.now);
    assert (e + newB) + newA == (e + newA) + newB;
  }

  /** first_seen and last_seen. */
  function Sightings(row: Option<DomainRow>): Option<(int, int)> {
    if row.Some? then Some((row.value.firstSeen, row.value.lastSeen)) else None
  }

  /** LEAST and GREATEST with one more sighting. */
  function Sighted(s: Option<(int, int)>, listed: bool, now: int): Option<(int, int)> {
    if !listed then s
    else if s.None? then Some((now, now))
    else Some((Min(s.value.0, now), Max(s.value.1, now)))
  }

  lemma SightedCommutes(s: Option<(int, int)>, l1: bool, t1: int, l2: bool, t2: int)
    ensures Sighted(Sighted(s, l1, t1), l2, t2) == Sighted(Sighted(s, l2, t2), l1, t1)
  {
  }

  lemma SightedByImport(db: L1, i: Import, r: Rule)
    ensures Sightings(Lookup(Run(db, i).domains, r)) == Sighted(Sightings(Lookup(db.domains, r)), r in i.st, i.now)
  {
    DomainAfterImport(db, i.st, i.src, i.importId, i.feedHash, i.now, r);
  }

  lemma SightedByEvent(db: L1, src: Source, rec: Indicator, now: int, rules: seq<Rule>, r: Rule)
    ensures Sightings(Lookup(UpsertRules(db, src, rec, now, rules).domains, r)) == Sighted(Sightings(Lookup(db.domains, r)), r in rules, now)
  {
    DomainAfterUpsert(db, src, rec, now, rules, r);
  }

  lemma ImportsAgreeOnSeen(db: L1, a: Import, b: Import, r: Rule)
    ensures SameSightings(Run(Run(db, a), b), Run(Run(db, b), a), r)
  {
    SightedByImport(db, a, r);
    SightedByImport(db, b, r);
    SightedByImport(Run(db, a), b, r);
    SightedByImport(Run(db, b), a, r);
    SightedCommutes(Sightings(Lookup(db.domains, r)), r in a.st, a.now, r in b.st, b.now);
  }

  /** With exact activity on both sides, equal sources and equal sightings give equal views. */
  lemma ExactActivityGivesSameView(a: L1, b: L1)
    requires ActivityExact(a) && ActivityExact(b)
    requires a.sources == b.sources && a.categories == b.categories && a.evidence == b.evidence
    requires forall r :: SameSightings(a, b, r)
    ensures SameView(a, b)
  {
    forall r ensures ViewOf(Lookup(a.domains, r)) == ViewOf(Lookup(b.domains, r)) {
      assert SameSightings(a, b, r);
    }
  }

  ghost predicate SameSightings(a: L1, b: L1, r: Rule) {
    Sightings(Lookup(a.domains, r)) == Sightings(Lookup(b.domains, r))
  }

  /** From any consistent state, imports of two different sources commute. */
  lemma ImportsCommute(db: L1, a: Import, b: Import)
    requires Inv(db) && a.src.id != b.src.id
    ensures SameView(Run(Run(db, a), b), Run(Run(db, b), a))
  {
    ApplyKeepsInv(db, a.src, a.importId, a.feedHash, a.st, a.now);
    ApplyKeepsInv(db, b.src, b.importId, b.feedHash, b.st, b.now);
    ApplyKeepsInv(Run(db, a), b.src, b.importId, b.feedHash, b.st, b.now);
    ApplyKeepsInv(Run(db, b), a.src, a.importId, a.feedHash, a.st, a.now);
    ImportsCommuteOnSources(db, a, b);
    ImportsCommuteOnCategories(db, a, b);
    ImportsCommuteOnEvidence(db, a, b);
    forall r ensures SameSightings(Run(Run(db, a), b), Run(Run(db, b), a), r) { ImportsAgreeOnSeen(db, a, b, r); }
    ExactActivityGivesSameView(Run(Run(db, a), b), Run(Run(db, b), a));
  }

  // ----- an import and a stream event -----

  lemma SameGuards(db: L1, i: Import, src: Source, rec: Indicator)
    requires i.src.id != src.id
    ensures UpsertDecision(Run(db, i), src, rec) == UpsertDecision(db, src, rec)
  {
    var after := Run(db, i).sources;
    forall k: SourceKey | k.1 == src.id ensures Lookup(after, k) == Lookup(db.sources, k) {
      SourceAfterImport(db.sources, i.st, i.src, i.now, k);
    }
    if rec.modified.Some? {
      StaleFrame(db.sources, after, src.id, rec.stixId, rec.modified.value);
      StaleFrame(after, db.sources, src.id, rec.stixId, rec.modified.value);
    }
  }

  lemma StaleFrame(a: map<SourceKey, SourceRow>, b: map<SourceKey, SourceRow>, source: int, stixId: string, modified: int)
    requires forall k: SourceKey :: k.1 == source ==> Lookup(a, k) == Lookup(b, k)
    ensures IsStale(a, source, stixId, modified) ==> IsStale(b, source, stixId, modified)
  {
    if IsStale(a, source, stixId, modified) {
      var k :| k in a && k.1 == source && a[k].recordId == Some(stixId) && a[k].modifiedAt.Some? && modified <= a[k].modifiedAt.value;
      assert Lookup(a, k) == Lookup(b, k);
      assert k in b && b[k] == a[k];
    }
  }

  lemma EventCommutesOnSources(db: L1, i: Import, src: Source, rec: Indicator, now: int, rules: seq<Rule>)
    requires i.src.id != src.id
    ensures UpsertRules(Run(db, i), src, rec, now, rules).sources == Run(UpsertRules(db, src, rec, now, rules), i).sources
  {
    var u := UpsertRules(db, src, rec, now, rules);
    var iu, ui := UpsertRules(Run(db, i), src, rec, now, rules).sources, Run(u, i).sources;
    forall k ensures Lookup(iu, k) == Lookup(ui, k) {
      SourceAfterImport(db.sources, i.st, i.src, i.now, k);
      SourceAfterUpsert(Run(db, i), src, rec, now, rules, k);
      SourceAfterUpsert(db, src, rec, now, rules, k);
      SourceAfterImport(u.sources, i.st, i.src, i.now, k);
    }
    SameLookups(iu, ui);
  }

  lemma EventCommutesOnCategories(db: L1, i: Import, src: Source, rec: Indicator, now: int, rules: seq<Rule>)
    requires i.src.id != src.id
    ensures UpsertRules(Run(db, i), src, rec, now, rules).categories == Run(UpsertRules(db, src, rec, now, rules), i).categories
  {
    var u := UpsertRules(db, src, rec, now, rules);
    var iu, ui := UpsertRules(Run(db, i), src, rec, now, rules).categories, Run(u, i).categories;
    forall k ensures Lookup(iu, k) == Lookup(ui, k) {
      CategoryAfterImport(db.categories, i.st, i.src, k);
      CategoryAfterUpsert(Run(db, i), src, rec, now, rules, k);
      CategoryAfterUpsert(db, src, rec, now, rules, k);
      CategoryAfterImport(u.categories, i.st, i.src, k);
    }
    SameLookups(iu, ui);
  }

  lemma EventCommutesOnEvidence(db: L1, i: Import, src: Source, rec: Indicator, now: int, rules: seq<Rule>)
    requires i.src.id != src.id
    ensures UpsertRules(Run(db, i), src, rec, now, rules).evidence == Run(UpsertRules(db, src, rec, now, rules), i).evidence
  {
    var e, u := db.evidence, UpsertRules(db, src, rec, now, rules).evidence;
    var newI, newU := Run(db, i).evidence - e, u - e;
    EvidenceOfImportIsOwn(e, i.st, i.src, i.importId, i.feedHash, i.now);
    EvidenceOfUpsertIsOwn(db, src, rec, now, rules);
    assert Run(db, i).evidence == e + newI && u == e + newU;
    EvidenceFrameUpsert(db, newI, src, rec, now, rules, Run(db, i));
    EvidenceFrameImport(e, newU, i.st, i.src, i.importId, i.feedHash, i.now);
    assert (e + newU) + newI == (e + newI) + newU;
  }

  lemma EventAgreesOnSeen(db: L1, i: Import, src: Source, rec: Indicator, now: int, rules: seq<Rule>, r: Rule)
    ensures SameSightings(UpsertRules(Run(db, i), src, rec, now, rules), Run(UpsertRules(db, src, rec, now, rules), i), r)
  {
    var u := UpsertRules(db, src, rec, now, rules);
    SightedByImport(db, i, r);
    SightedByEvent(Run(db, i), src, rec, now, rules, r);
    SightedByEvent(db, src, rec, now, rules, r);
    SightedByImport(u, i, r);
    SightedCommutes(Sightings(Lookup(db.domains, r)), r in i.st, i.now, r in rules, now);
  }

  lemma UpsertKeepsExactActivity(db: L1, src: Source, rec: Indicator, now: int, rules: seq<Rule>)
    requires Inv(db) && ActivityExact(db)
    ensures ActivityExact(UpsertRules(db, src, rec, now, rules))
  {
    var u := UpsertRules(db, src, rec, now, rules);
    forall r | r in u.domains ensures u.domains[r].active <==> HasActiveSource(u.sources, r) {
      DomainAfterUpsert(db, src, rec, now, rules, r);
      if r in rules {
        var k := (r, src.id);
        SourceAfterUpsert(db, src, rec, now, rules, k);
        assert k in u.sources && k.0 == r && u.sources[k].active;
      } else {
        SameRowsSameActivity(db.sources, u.sources, r) by {
          forall k: SourceKey | k.0 == r ensures Lookup(u.sources, k) == Lookup(db.sources, k) {
            SourceAfterUpsert(db, src, rec, now, rules, k);
          }
        }
      }
    }
  }

  lemma SameRowsSameActivity(a: map<SourceKey, SourceRow>, b: map<SourceKey, SourceRow>, r: Rule)
    requires forall k: SourceKey :: k.0 == r ==> Lookup(b, k) == Lookup(a, k)
    ensures HasActiveSource(a, r) <==> HasActiveSource(b, r)
  {
    if HasActiveSource(a, r) {
      var k :| k in a && k.0 == r && a[k].active;
      assert Lookup(b, k) == Lookup(a, k);
      assert k in b && b[k].active;
    }
    if HasActiveSource(b, r) {
      var k :| k in b && k.0 == r && b[k].active;
      assert Lookup(b, k) == Lookup(a, k);
      assert k in a && a[k].active;
    }
  }

  /** From any consistent state, an import and a stream event of different sources commute,
      whether the event is applied, stale or rejected. */
  lemma ImportAndEventCommute(db: L1, i: Import, src: Source, rec: Indicator, now: int)
    requires Inv(db) && i.src.id != src.id
    ensures SameView(Upserted(Run(db, i), src, rec, now), Run(Upserted(db, src, rec, now), i))
  {
    SameGuards(db, i, src, rec);
    if UpsertDecision(db, src, rec) == Done {
      var u := UpsertRules(db, src, rec, now, rec.rules);
      ApplyKeepsInv(db, i.src, i.importId, i.feedHash, i.st, i.now);
      UpsertKeepsExactActivity(Run(db, i), src, rec, now, rec.rules);
      UpsertKeepsInv(db, src, rec, now, rec.rules);
      ApplyKeepsInv(u, i.src, i.importId, i.feedHash, i.st, i.now);
      EventCommutesOnSources(db, i, src, rec, now, rec.rules);
      EventCommutesOnCategories(db, i, src, rec, now, rec.rules);
      EventCommutesOnEvidence(db, i, src, rec, now, rec.rules);
      forall r ensures SameSightings(UpsertRules(Run(db, i), src, rec, now, rec.rules), Run(u, i), r) {
        EventAgreesOnSeen(db, i, src, rec, now, rec.rules, r);
      }
      ExactActivityGivesSameView(UpsertRules(Run(db, i), src, rec, now, rec.rules), Run(u, i));
    }
  }
}
