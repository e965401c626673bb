/** Each table operation, read one row at a time: what a key maps to afterwards, in terms of
    what it mapped to before. */
module TableFacts {
  import opened Rules
  import opened Tables

  // ----- Apply -----

  /** The source's own row after its import. */
  function RowAfterImport(row: Option<SourceRow>, listed: bool, src: Source, now: int): Option<SourceRow> {
    var r := if listed then Some(ListedRow(row, DefaultConfidence(src), now)) else row;
    if r.Some? && r.value.active && r.value.lastSeen < now - src.gracePeriod then Some(r.value.(active := false)) else r
  }

  lemma SourceAfterImport(sources: map<SourceKey, SourceRow>, st: map<Rule, Record>, src: Source, now: int, k: SourceKey)
    ensures Lookup(SourcesAfter(sources, st, src, now), k) ==
            if k.1 == src.id then RowAfterImport(Lookup(sources, k), k.0 in st, src, now) else Lookup(sources, k)
  {
    var m := MergeSources(sources, st, src, now);
    assert k.1 == src.id && k.0 in st ==> k in ListedKeys(st, src.id);
    assert k in m <==> k in sources || k in ListedKeys(st, src.id);
  }

  lemma AssertedMember(rules: set<Rule>, source: int, categories: seq<int>, k: CategoryKey)
    ensures k in AssertedKeys(rules, source, categories) <==> k.0 in rules && k.1 == source && k.2 in categories
  {
    if k.0 in rules && k.1 == source && k.2 in categories {
      var r, c := k.0, k.2;
      assert r in rules && c in categories && (r, source, c) in AssertedKeys(rules, source, categories);
      assert k == (r, source, c);
    }
  }

  lemma CategoryAfterImport(categories: map<CategoryKey, int>, st: map<Rule, Record>, src: Source, k: CategoryKey)
    ensures Lookup(MergeCategories(categories, st, src), k) ==
            if k in categories then Some(categories[k])
            else if k.1 == src.id && k.0 in st && k.2 in src.categoryIds then Some(DefaultConfidence(src))
            else None
  {
    AssertedMember(st.Keys, src.id, src.categoryIds, k);
  }

  lemma DomainAfterImport(db: L1, st: map<Rule, Record>, src: Source, importId: int, feedHash: string, now: int, r: Rule)
    ensures var after := AppliedStaged(db, src, importId, feedHash, st, now);
            r in after.domains <==> r in db.domains || r in st
    ensures var after := AppliedStaged(db, src, importId, feedHash, st, now);
            r in after.domains ==>
              after.domains[r] ==
              (var d := if r in st then MergedDomain(Lookup(db.domains, r), st[r], now) else db.domains[r];
               d.(active := d.active && HasActiveSource(after.sources, r)))
  {
  }

  ghost predicate Foreign(rows: set<EvidenceRow>, source: int) {
    forall e :: e in rows ==> e.source != source
  }

  /** Another source's evidence does not influence what this import appends. */
  lemma EvidenceFrameImport(evidence: set<EvidenceRow>, extra: set<EvidenceRow>, st: map<Rule, Record>, src: Source, importId: int, feedHash: string, now: int)
    requires Foreign(extra, src.id)
    ensures MergeEvidence(evidence + extra, st, src, importId, feedHash, now) == MergeEvidence(evidence, st, src, importId, feedHash, now) + extra
  {
    forall r | r in st ensures Recorded(evidence + extra, r, src.id, st[r].rawHash) <==> Recorded(evidence, r, src.id, st[r].rawHash) {
      assert forall e :: e in evidence ==> e in evidence + extra;
    }
  }

  lemma EvidenceOfImportIsOwn(evidence: set<EvidenceRow>, st: map<Rule, Record>, src: Source, importId: int, feedHash: string, now: int)
    ensures evidence <= MergeEvidence(evidence, st, src, importId, feedHash, now)
    ensures forall e :: e in MergeEvidence(evidence, st, src, importId, feedHash, now) - evidence ==> e.source == src.id
  {
  }

  // ----- UpsertOpenCTI -----

  lemma {:induction false} DomainAfterUpsert(db: L1, src: Source, rec: Indicator, now: int, rules: seq<Rule>, r: Rule)
    ensures Lookup(UpsertRules(db, src, rec, now, rules).domains, r) ==
            if r in rules then Some(UpsertedDomain(Lookup(db.domains, r), now)) else Lookup(db.domains, r)
  {
    if rules != [] {
      var front, last := rules[..|rules| - 1], rules[|rules| - 1];
      assert rules == front + [last];
      DomainAfterUpsert(db, src, rec, now, front, r);
    }
  }

  lemma {:induction false} SourceAfterUpsert(db: L1, src: Source, rec: Indicator, now: int, rules: seq<Rule>, k: SourceKey)
    ensures Lookup(UpsertRules(db, src, rec, now, rules).sources, k) ==
            if k.1 == src.id && k.0 in rules then Some(UpsertedRow(Lookup(db.sources, k), src, rec, now)) else Lookup(db.sources, k)
  {
    if rules != [] {
      var front, last := rules[..|rules| - 1], rules[|rules| - 1];
      assert rules == front + [last];
      SourceAfterUpsert(db, src, rec, now, front, k);
    }
  }

  lemma CategoryAfterUpsertOne(categories: map<CategoryKey, int>, src: Source, rec: Indicator, r: Rule, k: CategoryKey)
    ensures Lookup(UpsertedCategories(categories, r, src, rec), k) ==
            if k.1 == src.id && k.0 == r then
              if k.2 in CategoriesFor(src, rec) then Some(ConfidenceFor(src, rec)) else None
            else Lookup(categories, k)
  {
    AssertedMember({r}, src.id, CategoriesFor(src, rec), k);
  }

  lemma {:induction false} CategoryAfterUpsert(db: L1, src: Source, rec: Indicator, now: int, rules: seq<Rule>, k: CategoryKey)
    ensures Lookup(UpsertRules(db, src, rec, now, rules).categories, k) ==
            if k.1 == src.id && k.0 in rules then
              if k.2 in CategoriesFor(src, rec) then Some(ConfidenceFor(src, rec)) else None
            else Lookup(db.categories, k)
  {
    if rules != [] {
      var front, last := rules[..|rules| - 1], rules[|rules| - 1];
      assert rules == front + [last];
      CategoryAfterUpsert(db, src, rec, now, front, k);
      CategoryAfterUpsertOne(UpsertRules(db, src, rec, now, front).categories, src, rec, last, k);
    }
  }

  lemma {:induction false} EvidenceFrameUpsert(db: L1, extra: set<EvidenceRow>, src: Source, rec: Indicator, now: int, rules: seq<Rule>, db2: L1)
    requires Foreign(extra, src.id) && db2.evidence == db.evidence + extra
    ensures UpsertRules(db2, src, rec, now, rules).evidence == UpsertRules(db, src, rec, now, rules).evidence + extra
  {
    if rules != [] {
      var front, r := rules[..|rules| - 1], rules[|rules| - 1];
      EvidenceFrameUpsert(db, extra, src, rec, now, front, db2);
      var e := UpsertRules(db, src, rec, now, front).evidence;
      var h := Sha256(RawLineOf(rec, r));
      assert Recorded(e + extra, r, src.id, h) <==> Recorded(e, r, src.id, h) by {
        assert forall x :: x in e ==> x in e + extra;
      }
    }
  }

  lemma {:induction false} EvidenceOfUpsertIsOwn(db: L1, src: Source, rec: Indicator, now: int, rules: seq<Rule>)
    ensures db.evidence <= UpsertRules(db, src, rec, now, rules).evidence
    ensures forall e :: e in UpsertRules(db, src, rec, now, rules).evidence - db.evidence ==> e.source == src.id
  {
    if rules != [] { EvidenceOfUpsertIsOwn(db, src, rec, now, rules[..|rules| - 1]); }
  }
}
