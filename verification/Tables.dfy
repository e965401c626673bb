/** The L1 tables and what one transaction does to them (internal/store/store.go and
    internal/store/opencti.go). Domains are keyed by rule instead of by serial id. */
module Tables {
  import opened Rules

  datatype DomainRow = DomainRow(firstSeen: int, lastSeen: int, active: bool, rawHash: Option<Digest>)

  datatype SourceRow = SourceRow(
    recordId: Option<string>, confidence: int, firstSeen: int, lastSeen: int,
    validUntil: Option<int>, revokedAt: Option<int>, modifiedAt: Option<int>, active: bool)

  /** A row of the append-only table L0. */
  datatype EvidenceRow = EvidenceRow(
    rule: Rule, source: int, importId: Option<int>, rawLine: string, rawHash: Digest, feedHash: Option<string>, seenAt: int)

  type SourceKey = (Rule, int)          // (domain, source)
  type CategoryKey = (Rule, int, int)   // (domain, source, category)

  datatype L1 = L1(
    domains: map<Rule, DomainRow>,
    sources: map<SourceKey, SourceRow>,
    categories: map<CategoryKey, int>,
    evidence: set<EvidenceRow>)

  const EMPTY := L1(map[], map[], map[], {})

  datatype Source = Source(id: int, trustScore: int, gracePeriod: int, categoryIds: seq<int>)

  /** A normalised feed line. */
  datatype Record = Record(rule: Rule, rawLine: string, rawHash: Digest)

  /** An indicator from the stream. `modified` is None for Go's zero time. */
  datatype Indicator = Indicator(
    stixId: string, rules: seq<Rule>, categoryIds: seq<int>, confidence: int,
    revoked: bool, validUntil: Option<int>, modified: Option<int>, rawLine: string)

  function Min(a: int, b: int): int { if a < b then a else b }

  function Max(a: int, b: int): int { if a < b then b else a }

  function DefaultConfidence(src: Source): int {
    if src.trustScore <= 0 then 50 else if src.trustScore > 100 then 100 else src.trustScore
  }

  predicate HasActiveSource(sources: map<SourceKey, SourceRow>, r: Rule) {
    exists k :: k in sources && k.0 == r && sources[k].active
  }

  // ----- Apply: one feed import -----

  /** Deduplication before COPY: the first record of each rule wins. */
  function Staging(records: seq<Record>): (st: map<Rule, Record>)
    ensures forall r :: r in st <==> exists x :: x in records && x.rule == r
  {
    if records == [] then map[]
    else
      var st, last := Staging(records[..|records| - 1]), records[|records| - 1];
      assert records == records[..|records| - 1] + [last];
      if last.rule in st then st else st[last.rule := last]
  }

  /** Step 1: GREATEST, LEAST, COALESCE, and active only ever switched on. */
  function MergedDomain(row: Option<DomainRow>, rec: Record, now: int): DomainRow {
    match row
    case None => DomainRow(now, now, true, Some(rec.rawHash))
    case Some(d) => DomainRow(Min(d.firstSeen, now), Max(d.lastSeen, now), true, if d.rawHash.Some? then d.rawHash else Some(rec.rawHash))
  }

  function MergeDomains(domains: map<Rule, DomainRow>, st: map<Rule, Record>, now: int): map<Rule, DomainRow> {
    map r | r in domains.Keys + st.Keys :: if r in st then MergedDomain(Lookup(domains, r), st[r], now) else domains[r]
  }

  /** Step 2: the source's own row for a listed domain. */
  function ListedRow(row: Option<SourceRow>, confidence: int, now: int): SourceRow {
    match row
    case None => SourceRow(None, confidence, now, now, None, None, None, true)
    case Some(s) => s.(lastSeen := Max(s.lastSeen, now), active := true, revokedAt := None)
  }

  function ListedKeys(st: map<Rule, Record>, source: int): set<SourceKey> {
    set r | r in st :: (r, source)
  }

  function MergeSources(sources: map<SourceKey, SourceRow>, st: map<Rule, Record>, src: Source, now: int): map<SourceKey, SourceRow> {
    map k | k in sources.Keys + ListedKeys(st, src.id) ::
      if k.1 == src.id && k.0 in st then ListedRow(Lookup(sources, k), DefaultConfidence(src), now) else sources[k]
  }

  /** Step 3: categories this source asserts; existing rows stay. */
  function AssertedKeys(rules: set<Rule>, source: int, categories: seq<int>): set<CategoryKey> {
    set r, c | r in rules && c in categories :: (r, source, c)
  }

  function MergeCategories(categories: map<CategoryKey, int>, st: map<Rule, Record>, src: Source): map<CategoryKey, int> {
    map k | k in categories.Keys + AssertedKeys(st.Keys, src.id, src.categoryIds) ::
      if k in categories then categories[k] else DefaultConfidence(src)
  }

  predicate Recorded(evidence: set<EvidenceRow>, r: Rule, source: int, h: Digest) {
    exists e :: e in evidence && e.rule == r && e.source == source && e.rawHash == h
  }

  /** Step 4: append a line only if this source never showed it for this domain. */
  function MergeEvidence(evidence: set<EvidenceRow>, st: map<Rule, Record>, src: Source, importId: int, feedHash: string, now: int): set<EvidenceRow> {
    evidence + set r | r in st && !Recorded(evidence, r, src.id, st[r].rawHash) ::
      EvidenceRow(r, src.id, Some(importId), st[r].rawLine, st[r].rawHash, if feedHash == "" then None else Some(feedHash), now)
  }

  /** Step 5: what this source stopped listing more than a grace period ago. */
  predicate OutOfGrace(k: SourceKey, row: SourceRow, src: Source, now: int) {
    k.1 == src.id && row.active && row.lastSeen < now - src.gracePeriod
  }

  function ExpireSources(sources: map<SourceKey, SourceRow>, src: Source, now: int): map<SourceKey, SourceRow> {
    map k | k in sources :: if OutOfGrace(k, sources[k], src, now) then sources[k].(active := false) else sources[k]
  }

  /** Step 6: a domain nobody asserts any more. */
  function RetireOrphans(domains: map<Rule, DomainRow>, sources: map<SourceKey, SourceRow>): map<Rule, DomainRow> {
    map r | r in domains :: domains[r].(active := domains[r].active && HasActiveSource(sources, r))
  }

  function ExpiredKeys(sources: map<SourceKey, SourceRow>, src: Source, now: int): set<SourceKey> {
    set k | k in sources && OutOfGrace(k, sources[k], src, now)
  }

  function SourcesAfter(sources: map<SourceKey, SourceRow>, st: map<Rule, Record>, src: Source, now: int): map<SourceKey, SourceRow> {
    ExpireSources(MergeSources(sources, st, src, now), src, now)
  }

  function AppliedStaged(db: L1, src: Source, importId: int, feedHash: string, st: map<Rule, Record>, now: int): L1 {
    var sources := SourcesAfter(db.sources, st, src, now);
    L1(RetireOrphans(MergeDomains(db.domains, st, now), sources), sources,
       MergeCategories(db.categories, st, src),
       MergeEvidence(db.evidence, st, src, importId, feedHash, now))
  }

  function Applied(db: L1, src: Source, importId: int, feedHash: string, records: seq<Record>, now: int): L1 {
    AppliedStaged(db, src, importId, feedHash, Staging(records), now)
  }

  // ----- UpsertOpenCTI: one indicator -----

  datatype UpsertOutcome = Done | StaleEvent | Rejected

  /** max(source_modified_at) over the indicator's rows. */
  predicate IsStale(sources: map<SourceKey, SourceRow>, source: int, stixId: string, modified: int) {
    exists k :: k in sources && k.1 == source && sources[k].recordId == Some(stixId)
                && sources[k].modifiedAt.Some? && modified <= sources[k].modifiedAt.value
  }

  function ConfidenceFor(src: Source, rec: Indicator): int {
    if Int16(rec.confidence) <= 0 then DefaultConfidence(src) else Int16(rec.confidence)
  }

  function CategoriesFor(src: Source, rec: Indicator): seq<int> {
    if |rec.categoryIds| == 0 then src.categoryIds else rec.categoryIds
  }

  function UpsertedDomain(row: Option<DomainRow>, now: int): DomainRow {
    match row
    case None => DomainRow(now, now, true, None)
    case Some(d) => d.(firstSeen := Min(d.firstSeen, now), lastSeen := Max(d.lastSeen, now), active := true)
  }

  /** The OpenCTI source's own row. It stays active even when the indicator is revoked. */
  function UpsertedRow(row: Option<SourceRow>, src: Source, rec: Indicator, now: int): SourceRow {
    SourceRow(
      Some(rec.stixId), ConfidenceFor(src, rec),
      if row.Some? then Min(row.value.firstSeen, now) else now,
      if row.Some? then Max(row.value.lastSeen, now) else now,
      rec.validUntil, if rec.revoked then Some(now) else None, rec.modified, true)
  }

  /** The DELETE and INSERT on domain_source_categories: exactly the asserted categories. */
  function UpsertedCategories(categories: map<CategoryKey, int>, r: Rule, src: Source, rec: Indicator): map<CategoryKey, int> {
    var asserted := AssertedKeys({r}, src.id, CategoriesFor(src, rec));
    map k | k in categories.Keys + asserted && (k in asserted || k.0 != r || k.1 != src.id) ::
      if k in asserted then ConfidenceFor(src, rec) else categories[k]
  }

  function RawLineOf(rec: Indicator, r: Rule): string {
    if rec.rawLine == "" then r.domain else rec.rawLine
  }

  function AppendedEvidence(evidence: set<EvidenceRow>, r: Rule, source: int, rawLine: string, now: int): set<EvidenceRow> {
    if Recorded(evidence, r, source, Sha256(rawLine)) then evidence
    else evidence + {EvidenceRow(r, source, None, rawLine, Sha256(rawLine), None, now)}
  }

  function UpsertRule(db: L1, src: Source, rec: Indicator, now: int, r: Rule): L1 {
    L1(db.domains[r := UpsertedDomain(Lookup(db.domains, r), now)],
       db.sources[(r, src.id) := UpsertedRow(Lookup(db.sources, (r, src.id)), src, rec, now)],
       UpsertedCategories(db.categories, r, src, rec),
       AppendedEvidence(db.evidence, r, src.id, RawLineOf(rec, r), now))
  }

  function UpsertRules(db: L1, src: Source, rec: Indicator, now: int, rules: seq<Rule>): L1 {
    if rules == [] then db
    else UpsertRule(UpsertRules(db, src, rec, now, rules[..|rules| - 1]), src, rec, now, rules[|rules| - 1])
  }

  /** The guards before the loop. A confidence above 100 breaks the column's CHECK, so the
      whole transaction rolls back. */
  function UpsertDecision(db: L1, src: Source, rec: Indicator): UpsertOutcome {
    if rec.stixId == "" || |rec.rules| == 0 then Rejected
    else if rec.modified.Some? && IsStale(db.sources, src.id, rec.stixId, rec.modified.value) then StaleEvent
    else if ConfidenceFor(src, rec) > 100 then Rejected
    else Done
  }

  function Upserted(db: L1, src: Source, rec: Indicator, now: int): L1 {
    if UpsertDecision(db, src, rec) == Done then UpsertRules(db, src, rec, now, rec.rules) else db
  }

  // ----- DeleteOpenCTI and MergeOpenCTI -----

  predicate Carries(k: SourceKey, row: SourceRow, source: int, ids: set<string>) {
    k.1 == source && row.recordId.Some? && row.recordId.value in ids
  }

  function Deleted(db: L1, source: int, stixId: string): L1 {
    db.(sources := map k | k in db.sources ::
          if Carries(k, db.sources[k], source, {stixId}) then db.sources[k].(active := false, revokedAt := None) else db.sources[k])
  }

  /** The cleanup DELETE: rows under an old id whose domain also has a row under the new id. */
  predicate MergeDrops(sources: map<SourceKey, SourceRow>, k: SourceKey, source: int, from: set<string>, to: string) {
    && k in sources && Carries(k, sources[k], source, from)
    && exists keep :: keep in sources && keep.1 == k.1 && keep.0 == k.0 && sources[keep].recordId == Some(to)
  }

  /** The rows of the UPDATE: those under an old id that the DELETE left. */
  function Remapped(sources: map<SourceKey, SourceRow>, source: int, from: seq<string>, to: string): set<SourceKey> {
    var ids := set f | f in from;
    if to == "" then {} else set k | k in sources && Carries(k, sources[k], source, ids) && !MergeDrops(sources, k, source, ids, to)
  }

  function Merged(db: L1, source: int, from: seq<string>, to: string): L1 {
    if to == "" || |from| == 0 then db
    else
      var ids := set f | f in from;
      var kept := map k | k in db.sources && !MergeDrops(db.sources, k, source, ids, to) :: db.sources[k];
      db.(sources := map k | k in kept :: if Carries(k, kept[k], source, ids) then kept[k].(recordId := Some(to)) else kept[k],
          categories := map k | k in db.categories && !MergeDrops(db.sources, (k.0, k.1), source, ids, to) :: db.categories[k])
  }
}
