/** The transactions as code: statements that reassign the four tables in order. */
module Store {
  import opened Rules
  import opened Tables

  class L1Store {
    var domains: map<Rule, DomainRow>
    var sources: map<SourceKey, SourceRow>
    var categories: map<CategoryKey, int>
    var evidence: set<EvidenceRow>

    ghost function Value(): L1
      reads this
    {
      L1(domains, sources, categories, evidence)
    }

    constructor ()
      ensures Value() == EMPTY
    {
      domains, sources, categories, evidence := map[], map[], map[], {};
    }

    /** Deduplication through `seen`: the first record of a rule is the one staged. */
    method Stage(records: seq<Record>) returns (rows: map<Rule, Record>)
      ensures rows == Staging(records)
    {
      var seen: set<Rule> := {};
      rows := map[];
      for i := 0 to |records|
        invariant rows == Staging(records[..i]) && seen == rows.Keys
      {
        var r := records[i];
        assert records[..i + 1][..i] == records[..i];
        if r.rule in seen { continue; }
        seen := seen + {r.rule};
        rows := rows[r.rule := r];
      }
      assert records[..|records|] == records;
    }

    /** The six statements of applyMerge, in order. */
    method ApplyMerge(rows: map<Rule, Record>, src: Source, importId: int, feedHash: string, now: int)
      returns (added: nat, updated: nat, removed: nat)
      modifies this
      ensures Value() == AppliedStaged(old(Value()), src, importId, feedHash, rows, now)
      ensures added == |rows.Keys - old(domains).Keys|
      ensures updated == |ListedKeys(rows, src.id) * old(sources).Keys|
      ensures removed == |ExpiredKeys(MergeSources(old(sources), rows, src, now), src, now)|
    {
      added := |rows.Keys - domains.Keys|;
      domains := MergeDomains(domains, rows, now);
      updated := |ListedKeys(rows, src.id) * sources.Keys|;
      sources := MergeSources(sources, rows, src, now);
      categories := MergeCategories(categories, rows, src);
      evidence := MergeEvidence(evidence, rows, src, importId, feedHash, now);
      removed := |ExpiredKeys(sources, src, now)|;
      sources := ExpireSources(sources, src, now);
      domains := RetireOrphans(domains, sources);
    }

    /** One import, all or nothing. */
    method Apply(src: Source, importId: int, feedHash: string, records: seq<Record>, now: int)
      returns (added: nat, updated: nat, removed: nat)
      modifies this
      ensures Value() == Applied(old(Value()), src, importId, feedHash, records, now)
      ensures added == |Staging(records).Keys - old(domains).Keys|
    {
      var rows := Stage(records);
      added, updated, removed := ApplyMerge(rows, src, importId, feedHash, now);
    }

    /** One indicator: guards, then upsert, category replacement and evidence for each rule. */
    method UpsertOpenCTI(src: Source, rec: Indicator, now: int) returns (outcome: UpsertOutcome)
      modifies this
      ensures Value() == Upserted(old(Value()), src, rec, now)
      ensures outcome == UpsertDecision(old(Value()), src, rec)
    {
      if rec.stixId == "" || |rec.rules| == 0 { return Rejected; }
      if rec.modified.Some? && IsStale(sources, src.id, rec.stixId, rec.modified.value) { return StaleEvent; }
      if ConfidenceFor(src, rec) > 100 { return Rejected; }
      for i := 0 to |rec.rules|
        invariant Value() == UpsertRules(old(Value()), src, rec, now, rec.rules[..i])
      {
        var rule := rec.rules[i];
        assert rec.rules[..i + 1][..i] == rec.rules[..i];
        domains := domains[rule := UpsertedDomain(Lookup(domains, rule), now)];
        sources := sources[(rule, src.id) := UpsertedRow(Lookup(sources, (rule, src.id)), src, rec, now)];
        categories := UpsertedCategories(categories, rule, src, rec);
        evidence := AppendedEvidence(evidence, rule, src.id, RawLineOf(rec, rule), now);
      }
      assert rec.rules[..|rec.rules|] == rec.rules;
      return Done;
    }

    method DeleteOpenCTI(source: int, stixId: string) returns (n: nat)
      modifies this`sources
      ensures Value() == Deleted(old(Value()), source, stixId)
      ensures n == |set k | k in old(sources) && Carries(k, old(sources)[k], source, {stixId})|
    {
      n := |set k | k in sources && Carries(k, sources[k], source, {stixId})|;
      sources := map k | k in sources ::
        if Carries(k, sources[k], source, {stixId}) then sources[k].(active := false, revokedAt := None) else sources[k];
    }

    /** Answers how many rows carry the new id now that carried an old one before. */
    method MergeOpenCTI(source: int, from: seq<string>, to: string) returns (n: nat)
      modifies this`sources, this`categories
      ensures Value() == Merged(old(Value()), source, from, to)
      ensures n == |Remapped(old(sources), source, from, to)|
    {
      if to == "" || |from| == 0 { return 0; }
      var ids := set f | f in from;
      var before := sources;
      categories := map k | k in categories && !MergeDrops(before, (k.0, k.1), source, ids, to) :: categories[k];
      sources := map k | k in before && !MergeDrops(before, k, source, ids, to) :: before[k];
      var carrying := set k | k in sources && Carries(k, sources[k], source, ids);
      assert carrying == Remapped(before, source, from, to);
      n := |carrying|;
      sources := map k | k in sources :: if Carries(k, sources[k], source, ids) then sources[k].(recordId := Some(to)) else sources[k];
    }
  }
}
