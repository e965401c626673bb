/** internal/store/policyrun.go, EvaluateAll: from the L1 tables through the evidence query and
    the policy to the decisions, and how far a revocation in OpenCTI reaches. */
module EvaluateAll {
  import opened Rules
  import opened Tables
  import opened TableFacts
  import opened Policy
  import opened GroupBy
  import opened PolicyRun
  import opened Decisions

  /** What the query joins by id: the rows of sources and categories, and the ids of domains. */
  datatype SourceInfo = SourceInfo(name: string, origin: Origin, trust: int)

  datatype Catalog = Catalog(idOf: Rule -> int, source: map<int, SourceInfo>, category: map<int, string>)

  ghost predicate ProperIds(cat: Catalog) {
    (forall r :: cat.idOf(r) >= 0) && forall r, s :: cat.idOf(r) == cat.idOf(s) ==> r == s
  }

  // ----- the query -----

  /** The joins and the WHERE clause: a category row counts when its domain is active and its
      own source's row for that domain is active. */
  predicate Selected(db: L1, cat: Catalog, k: CategoryKey) {
    && k in db.categories
    && k.0 in db.domains && db.domains[k.0].active
    && (k.0, k.1) in db.sources && db.sources[(k.0, k.1)].active
    && k.1 in cat.source && k.2 in cat.category
  }

  function RowFor(db: L1, cat: Catalog, k: CategoryKey): Row
    requires Selected(db, cat, k)
  {
    var info, own := cat.source[k.1], db.sources[(k.0, k.1)];
    Row(cat.idOf(k.0), k.0.domain, k.2, cat.category[k.2], info.name, info.origin, info.trust,
        Some(db.categories[k]), own.lastSeen, own.validUntil, own.revokedAt)
  }

  ghost predicate IsRow(db: L1, cat: Catalog, row: Row) {
    exists k :: Selected(db, cat, k) && row == RowFor(db, cat, k)
  }

  /** A possible result of the query: ORDER BY leaves the order inside a pair open. */
  ghost predicate AnswersQuery(rows: seq<Row>, db: L1, cat: Catalog) {
    SortedRows(rows) && forall row :: row in rows <==> IsRow(db, cat, row)
  }

  lemma QueryRowsAreJoined(rows: seq<Row>, db: L1, cat: Catalog)
    requires AnswersQuery(rows, db, cat) && ProperIds(cat)
    ensures JoinedRows(rows)
  {
    forall row | row in rows ensures row.domainId >= 0 { assert IsRow(db, cat, row); }
    forall a, b | a in rows && b in rows && RowKey(a) == RowKey(b) ensures a.domain == b.domain && a.category == b.category {
      assert IsRow(db, cat, a) && IsRow(db, cat, b);
    }
  }

  // ----- the run -----

  ghost predicate RunWrote(before: DB, after: DB, rows: seq<Row>, runId: int, c: Context, pending: seq<Pending>) {
    GroupedBy(pending, rows, DeciderFor(c)) && DistinctKeys(pending) && after == Written(before, pending, runId)
  }

  datatype RunStats = RunStats(evaluated: nat, blocked: nat, changed: nat)

  /** The pairs are streamed, decided and written in one transaction. */
  method EvaluateAll(store: DecisionStore, ghost db: L1, ghost cat: Catalog, rows: seq<Row>, runId: int, cfg: Config, m: Matchers, now: int)
    returns (stats: RunStats, ghost pending: seq<Pending>)
    requires AnswersQuery(rows, db, cat) && ProperIds(cat) && m.Valid()
    modifies store
    ensures RunWrote(old(store.Value()), store.Value(), rows, runId, Context(cfg, m.Value(), now), pending)
    ensures stats == RunStats(|pending|, CountBlocked(pending), |ChangedKeys(old(store.decisions), pending)|)
  {
    QueryRowsAreJoined(rows, db, cat);
    var decided, evaluated, blocked := EvaluateRows(rows, cfg, m, now);
    GroupedKeysDistinct(decided, rows, DeciderFor(Context(cfg, m.Value(), now)));
    var changed := store.WriteDecisions(runId, decided);
    pending := decided;
    stats := RunStats(evaluated, blocked, changed);
  }

  // ----- what a run decides, read off the tables -----

  /** Source s asserts category c of domain r, as far as the query is concerned. */
  predicate Asserts(db: L1, cat: Catalog, r: Rule, s: int, c: int) {
    Selected(db, cat, (r, s, c))
  }

  ghost predicate HasPair(db: L1, cat: Catalog, r: Rule, c: int) {
    exists s :: Asserts(db, cat, r, s, c)
  }

  function EvidenceFrom(db: L1, cat: Catalog, r: Rule, s: int, c: int): Evidence
    requires Asserts(db, cat, r, s, c)
  {
    ToEvidence(RowFor(db, cat, (r, s, c)))
  }

  ghost predicate IsEvidence(db: L1, cat: Catalog, r: Rule, c: int, e: Evidence) {
    exists s :: Asserts(db, cat, r, s, c) && e == EvidenceFrom(db, cat, r, s, c)
  }

  /** All the evidence about one pair, one item for each source that asserts it. */
  ghost predicate EvidenceAbout(db: L1, cat: Catalog, r: Rule, c: int, evidence: seq<Evidence>) {
    forall e :: e in evidence <==> IsEvidence(db, cat, r, c, e)
  }

  function PairOf(cat: Catalog, r: Rule, c: int): Key {
    (cat.idOf(r), c)
  }

  lemma RowOfPair(rows: seq<Row>, db: L1, cat: Catalog, r: Rule, c: int, row: Row)
    requires AnswersQuery(rows, db, cat) && ProperIds(cat)
    ensures row in rows && RowKey(row) == PairOf(cat, r, c) <==> exists s :: Asserts(db, cat, r, s, c) && row == RowFor(db, cat, (r, s, c))
  {
    if row in rows && RowKey(row) == PairOf(cat, r, c) {
      assert IsRow(db, cat, row);
      var k :| Selected(db, cat, k) && row == RowFor(db, cat, k);
      assert k == (r, k.1, c);
      assert Asserts(db, cat, r, k.1, c);
    }
    if s :| Asserts(db, cat, r, s, c) && row == RowFor(db, cat, (r, s, c)) {
      assert IsRow(db, cat, row);
    }
  }

  lemma PairEvidence(rows: seq<Row>, db: L1, cat: Catalog, r: Rule, c: int)
    requires AnswersQuery(rows, db, cat) && ProperIds(cat)
    ensures EvidenceAbout(db, cat, r, c, EvidenceOf(rows, PairOf(cat, r, c)))
  {
    forall e ensures e in EvidenceOf(rows, PairOf(cat, r, c)) <==> IsEvidence(db, cat, r, c, e) {
      EvidenceOfMember(rows, PairOf(cat, r, c), e);
      if e in EvidenceOf(rows, PairOf(cat, r, c)) {
        var row :| row in rows && RowKey(row) == PairOf(cat, r, c) && ToEvidence(row) == e;
        RowOfPair(rows, db, cat, r, c, row);
      }
      if IsEvidence(db, cat, r, c, e) {
        var s :| Asserts(db, cat, r, s, c) && e == EvidenceFrom(db, cat, r, s, c);
        RowOfPair(rows, db, cat, r, c, RowFor(db, cat, (r, s, c)));
      }
    }
  }

  /** A run decides exactly the pairs that some active source asserts of an active domain. */
  lemma DecidedPairs(rows: seq<Row>, db: L1, cat: Catalog, pending: seq<Pending>, d: Decider, r: Rule, c: int)
    requires AnswersQuery(rows, db, cat) && ProperIds(cat) && GroupedBy(pending, rows, d)
    ensures HasKey(pending, PairOf(cat, r, c)) <==> HasPair(db, cat, r, c)
  {
    if HasKey(pending, PairOf(cat, r, c)) {
      var p :| p in pending && PendingKey(p) == PairOf(cat, r, c);
      assert FromGroup(p, rows, d);
      var row :| row in rows && RowKey(row) == PendingKey(p);
      RowOfPair(rows, db, cat, r, c, row);
    }
    if HasPair(db, cat, r, c) {
      var s :| Asserts(db, cat, r, s, c);
      RowOfPair(rows, db, cat, r, c, RowFor(db, cat, (r, s, c)));
      assert HasKey(pending, RowKey(RowFor(db, cat, (r, s, c))));
    }
  }

  /** And it decides each from all the evidence about it, in any order. */
  lemma DecidedFromTheTables(rows: seq<Row>, db: L1, cat: Catalog, pending: seq<Pending>, ctx: Context, r: Rule, c: int, p: Pending, evidence: seq<Evidence>)
    requires AnswersQuery(rows, db, cat) && ProperIds(cat) && GroupedBy(pending, rows, DeciderFor(ctx))
    requires p in pending && PendingKey(p) == PairOf(cat, r, c) && EvidenceAbout(db, cat, r, c, evidence)
    ensures c in cat.category && p == DecisionFor(Open(cat.idOf(r), c, r.domain, cat.category[c]), evidence, ctx)
  {
    assert FromGroup(p, rows, DeciderFor(ctx));
    var row :| row in rows && RowKey(row) == PendingKey(p) && p == DecisionFor(OpenedBy(row), EvidenceOf(rows, RowKey(row)), ctx);
    RowOfPair(rows, db, cat, r, c, row);
    PairEvidence(rows, db, cat, r, c);
    DeciderOrderBlind(ctx);
    assert SameElements(EvidenceOf(rows, RowKey(row)), evidence);
    var o := OpenedBy(row);
    assert DeciderFor(ctx)(o, EvidenceOf(rows, RowKey(row))) == DeciderFor(ctx)(o, evidence);
  }

  // ----- what the table holds after a run -----

  ghost predicate AnyPair(db: L1, cat: Catalog) {
    exists r, c :: HasPair(db, cat, r, c)
  }

  /** The table holds exactly the pairs that are asserted, unless nothing at all is: a run that
      finds no pair leaves every old decision standing, blocks included. */
  lemma TableFollowsIff(rows: seq<Row>, db: L1, cat: Catalog, before: DB, after: DB, runId: int, ctx: Context, pending: seq<Pending>)
    requires AnswersQuery(rows, db, cat) && ProperIds(cat) && RunWrote(before, after, rows, runId, ctx, pending)
    ensures pending == [] <==> !AnyPair(db, cat)
    ensures (forall k :: k in after.decisions <==> HasKey(pending, k)) <==> AnyPair(db, cat) || before.decisions == map[]
  {
    if r, c :| HasPair(db, cat, r, c) {
      DecidedPairs(rows, db, cat, pending, DeciderFor(ctx), r, c);
    }
    if pending != [] {
      PairOfPending(rows, db, cat, pending, DeciderFor(ctx), pending[0]);
      TableIsStaging(before, pending, runId);
      forall k ensures k in StagedKeys(pending) <==> HasKey(pending, k) { }
    } else if before.decisions != map[] {
      var k :| k in before.decisions;
      assert k in after.decisions && !HasKey(pending, k);
    }
  }

  lemma PairOfPending(rows: seq<Row>, db: L1, cat: Catalog, pending: seq<Pending>, d: Decider, p: Pending)
    requires AnswersQuery(rows, db, cat) && GroupedBy(pending, rows, d) && p in pending
    ensures AnyPair(db, cat)
  {
    assert FromGroup(p, rows, d);
    var row :| row in rows && RowKey(row) == PendingKey(p);
    assert IsRow(db, cat, row);
    var k :| Selected(db, cat, k) && row == RowFor(db, cat, k);
    assert Asserts(db, cat, k.0, k.1, k.2);
    assert HasPair(db, cat, k.0, k.2);
  }

  /** The last block there is outlives its evidence: with nothing in the tables, a run leaves
      it where it was. */
  lemma LastBlockStays(cat: Catalog, k: Key, last: Stored, runId: int, ctx: Context)
    requires last.action == Block
    ensures var before := DB(map[k := last], []);
            AnswersQuery([], EMPTY, cat) && RunWrote(before, before, [], runId, ctx, [])
  {
    assert forall row :: !IsRow(EMPTY, cat, row);
  }

  // ----- how far a revocation reaches -----

  /** An active OpenCTI row that asserts this very category of the domain is revoked. */
  ghost predicate RevokedFor(db: L1, cat: Catalog, r: Rule, c: int, now: int) {
    exists s :: Asserts(db, cat, r, s, c) && cat.source[s].origin == OpenCTI && Expired(db.sources[(r, s)].revokedAt, now)
  }

  ghost predicate EarlierRung(flags: ListFlags) {
    flags.protectedAllow || flags.tenantAllow || flags.tenantDeny || flags.globalAllow
  }

  lemma RevocationInEvidence(db: L1, cat: Catalog, r: Rule, c: int, evidence: seq<Evidence>, now: int)
    requires EvidenceAbout(db, cat, r, c, evidence)
    ensures RevokedByOpenCTI(evidence, now) <==> RevokedFor(db, cat, r, c, now)
  {
    if RevokedByOpenCTI(evidence, now) {
      var e :| e in evidence && e.origin == OpenCTI && Expired(e.revokedAt, now);
      assert IsEvidence(db, cat, r, c, e);
    }
    if RevokedFor(db, cat, r, c, now) {
      var s :| Asserts(db, cat, r, s, c) && cat.source[s].origin == OpenCTI && Expired(db.sources[(r, s)].revokedAt, now);
      assert IsEvidence(db, cat, r, c, EvidenceFrom(db, cat, r, s, c));
    }
  }

  /** A pair is allowed as revoked exactly when no earlier rung speaks and some OpenCTI row that
      asserts its own category is revoked. */
  lemma AllowedAsRevokedIff(rows: seq<Row>, db: L1, cat: Catalog, pending: seq<Pending>, ctx: Context, r: Rule, c: int, p: Pending)
    requires AnswersQuery(rows, db, cat) && ProperIds(cat) && GroupedBy(pending, rows, DeciderFor(ctx))
    requires p in pending && PendingKey(p) == PairOf(cat, r, c)
    ensures p.reason == OpenCTIRevoked <==> !EarlierRung(FlagsFor(r.domain, ctx.lists)) && RevokedFor(db, cat, r, c, ctx.now)
    ensures p.reason == OpenCTIRevoked ==> p.action == Allow
  {
    var evidence := EvidenceOf(rows, PairOf(cat, r, c));
    PairEvidence(rows, db, cat, r, c);
    DecidedFromTheTables(rows, db, cat, pending, ctx, r, c, p, evidence);
    RevocationInEvidence(db, cat, r, c, evidence, ctx.now);
  }

  ghost predicate OnlyOpenCTI(cat: Catalog, source: int) {
    forall s :: s in cat.source ==> (cat.source[s].origin == OpenCTI <==> s == source)
  }

  lemma AssertsAfterUpsert(db: L1, cat: Catalog, src: Source, rec: Indicator, t: int, r: Rule, s: int, c: int)
    requires r in rec.rules && UpsertDecision(db, src, rec) == Done && src.id in cat.source && c in cat.category
    ensures var after := Tables.Upserted(db, src, rec, t);
            && (s == src.id ==> (Asserts(after, cat, r, s, c) <==> c in CategoriesFor(src, rec)))
            && (s != src.id && Lookup(db.domains, r).Some? && db.domains[r].active ==> (Asserts(after, cat, r, s, c) <==> Asserts(db, cat, r, s, c)))
            && Lookup(after.sources, (r, s)) ==
               (if s == src.id then Some(UpsertedRow(Lookup(db.sources, (r, s)), src, rec, t)) else Lookup(db.sources, (r, s)))
            && (s != src.id ==> Lookup(after.categories, (r, s, c)) == Lookup(db.categories, (r, s, c)))
  {
    var after := Tables.Upserted(db, src, rec, t);
    DomainAfterUpsert(db, src, rec, t, rec.rules, r);
    SourceAfterUpsert(db, src, rec, t, rec.rules, (r, s));
    CategoryAfterUpsert(db, src, rec, t, rec.rules, (r, s, c));
    assert Lookup(after.domains, r) == Some(UpsertedDomain(Lookup(db.domains, r), t));
  }

  /** An analyst revokes an indicator, and the event is applied. From then on, where no earlier
      rung speaks, exactly the categories that the indicator itself asserts are allowed as
      revoked; a category that only feeds assert is not. */
  lemma RevocationReachesOwnCategories(db: L1, cat: Catalog, src: Source, rec: Indicator, t: int,
                                       rows: seq<Row>, pending: seq<Pending>, ctx: Context, r: Rule, c: int, p: Pending)
    requires UpsertDecision(db, src, rec) == Done && rec.revoked && r in rec.rules && t <= ctx.now
    requires src.id in cat.source && OnlyOpenCTI(cat, src.id) && ProperIds(cat)
    requires AnswersQuery(rows, Tables.Upserted(db, src, rec, t), cat) && GroupedBy(pending, rows, DeciderFor(ctx))
    requires p in pending && PendingKey(p) == PairOf(cat, r, c)
    ensures p.reason == OpenCTIRevoked <==> !EarlierRung(FlagsFor(r.domain, ctx.lists)) && c in CategoriesFor(src, rec)
  {
    var after := Tables.Upserted(db, src, rec, t);
    AllowedAsRevokedIff(rows, after, cat, pending, ctx, r, c, p);
    DecidedPairs(rows, after, cat, pending, DeciderFor(ctx), r, c);
    assert c in cat.category;
    AssertsAfterUpsert(db, cat, src, rec, t, r, src.id, c);
    assert after.sources[(r, src.id)].revokedAt == Some(t);
  }

  lemma FeedEvidenceStays(db: L1, cat: Catalog, src: Source, rec: Indicator, t: int, r: Rule, c: int, e: Evidence)
    requires UpsertDecision(db, src, rec) == Done && r in rec.rules && r in db.domains && db.domains[r].active
    requires src.id in cat.source && c in cat.category && c !in CategoriesFor(src, rec) && !Asserts(db, cat, r, src.id, c)
    ensures IsEvidence(Tables.Upserted(db, src, rec, t), cat, r, c, e) <==> IsEvidence(db, cat, r, c, e)
  {
    var after := Tables.Upserted(db, src, rec, t);
    if IsEvidence(after, cat, r, c, e) {
      var s :| Asserts(after, cat, r, s, c) && e == EvidenceFrom(after, cat, r, s, c);
      AssertsAfterUpsert(db, cat, src, rec, t, r, s, c);
      assert e == EvidenceFrom(db, cat, r, s, c);
    }
    if IsEvidence(db, cat, r, c, e) {
      var s :| Asserts(db, cat, r, s, c) && e == EvidenceFrom(db, cat, r, s, c);
      AssertsAfterUpsert(db, cat, src, rec, t, r, s, c);
      assert e == EvidenceFrom(after, cat, r, s, c);
    }
  }

  /** A category the indicator says nothing about is decided after the revocation as it was
      before: what a feed had blocked there stays blocked. */
  lemma OtherCategoriesKeepTheirDecision(db: L1, cat: Catalog, src: Source, rec: Indicator, t: int,
                                         rows1: seq<Row>, pending1: seq<Pending>, p1: Pending,
                                         rows2: seq<Row>, pending2: seq<Pending>, p2: Pending, ctx: Context, r: Rule, c: int)
    requires UpsertDecision(db, src, rec) == Done && r in rec.rules && r in db.domains && db.domains[r].active
    requires src.id in cat.source && ProperIds(cat) && c !in CategoriesFor(src, rec) && !Asserts(db, cat, r, src.id, c)
    requires AnswersQuery(rows1, db, cat) && GroupedBy(pending1, rows1, DeciderFor(ctx)) && p1 in pending1 && PendingKey(p1) == PairOf(cat, r, c)
    requires AnswersQuery(rows2, Tables.Upserted(db, src, rec, t), cat) && GroupedBy(pending2, rows2, DeciderFor(ctx))
             && p2 in pending2 && PendingKey(p2) == PairOf(cat, r, c)
    ensures p1 == p2
  {
    var evidence := EvidenceOf(rows1, PairOf(cat, r, c));
    PairEvidence(rows1, db, cat, r, c);
    DecidedFromTheTables(rows1, db, cat, pending1, ctx, r, c, p1, evidence);
    forall e ensures e in evidence <==> IsEvidence(Tables.Upserted(db, src, rec, t), cat, r, c, e) { FeedEvidenceStays(db, cat, src, rec, t, r, c, e); }
    DecidedFromTheTables(rows2, Tables.Upserted(db, src, rec, t), cat, pending2, ctx, r, c, p2, evidence);
  }

  // ----- a revoked domain that stays blocked -----

  const LISTED := Rule("bad.example", Exact)
  const NOW := 100
  const FEED_ROW := SourceRow(None, 100, NOW, NOW, None, None, None, true)
  const LISTED_BY_FEED := L1(map[LISTED := DomainRow(NOW, NOW, true, None)], map[(LISTED, 1) := FEED_ROW], map[(LISTED, 1, 10) := 100], {})
  const SOURCES := map[1 := SourceInfo("feed", Direct, 100), 2 := SourceInfo("opencti", OpenCTI, 80)]
  const CATEGORIES := map[10 := "malware", 20 := "phishing"]
  const PLATFORM := Source(2, 80, 0, [])
  const REVOKED_INDICATOR := Indicator("indicator--1", [LISTED], [20], 80, true, None, None, "")
  const NO_NAMES := NameList({}, {})
  const PLAIN_CONTEXT := Context(Config(Monitor, map["malware" := 80], 10, 20, 1, 30), Lists(NO_NAMES, NO_NAMES, NO_NAMES), NOW)
  const FEED_EVIDENCE := Evidence("feed", Direct, 100, 100, NOW, None, None)

  lemma NoEvidenceParts()
    ensures Best({}) == 0 && Newest({}) == 0 && DirectSources({}) == {}
  {
    assert DirectRows({}) == {};
  }

  lemma OneRowParts(e: Evidence)
    requires e.origin == Direct
    ensures Best({e}) == Policy.Max(0, Strength(e)) && Newest({e}) == Policy.Max(0, e.lastSeen) && DirectSources({e}) == {e.sourceId}
  {
    NoEvidenceParts();
    var none: set<Evidence> := {};
    assert none + {e} == {e};
    GrowActive(none, e);
  }

  /** The score of one fresh direct row is its strength. */
  lemma OneRowScore(e: Evidence, now: int, cfg: Config)
    requires e.origin == Direct && e.lastSeen == now && now > 0 && 0 <= Strength(e) <= 100
    ensures ScoreOf({e}, now, cfg).score == Strength(e)
  {
    OneRowParts(e);
    assert |{e.sourceId}| == 1;
    assert Total({e}, now, cfg) == Strength(e);
  }

  lemma OneRowBlocks(e: Evidence, category: string, flags: ListFlags, now: int, cfg: Config)
    requires flags == ListFlags(false, false, false, false, false)
    requires e.origin == Direct && e.lastSeen == now && now > 0 && Active(e, now) && 0 <= Strength(e) <= 100
    requires category in cfg.minScore && Strength(e) >= cfg.minScore[category]
    ensures Decided([e], category, flags, now, cfg).action == Block
  {
    assert ActiveSet([e], now) == {e};
    OneRowScore(e, now, cfg);
    MatchedIffActive({e}, now, cfg);
    assert forall x :: x in [e] ==> x == e;
  }

  lemma OnlyTheFeedSpeaks(cat: Catalog)
    requires cat.source == SOURCES && cat.category == CATEGORIES
    ensures EvidenceAbout(Tables.Upserted(LISTED_BY_FEED, PLATFORM, REVOKED_INDICATOR, NOW), cat, LISTED, 10, [FEED_EVIDENCE])
    ensures HasPair(Tables.Upserted(LISTED_BY_FEED, PLATFORM, REVOKED_INDICATOR, NOW), cat, LISTED, 10)
  {
    var after := Tables.Upserted(LISTED_BY_FEED, PLATFORM, REVOKED_INDICATOR, NOW);
    assert REVOKED_INDICATOR.rules[0] == LISTED;
    forall s ensures Asserts(after, cat, LISTED, s, 10) <==> s == 1 {
      AssertsAfterUpsert(LISTED_BY_FEED, cat, PLATFORM, REVOKED_INDICATOR, NOW, LISTED, s, 10);
    }
    AssertsAfterUpsert(LISTED_BY_FEED, cat, PLATFORM, REVOKED_INDICATOR, NOW, LISTED, 1, 10);
    assert EvidenceFrom(after, cat, LISTED, 1, 10) == FEED_EVIDENCE;
  }

  lemma BlockedByOneRow(rows: seq<Row>, db: L1, cat: Catalog, pending: seq<Pending>, ctx: Context, r: Rule, c: int, e: Evidence)
    requires AnswersQuery(rows, db, cat) && ProperIds(cat) && GroupedBy(pending, rows, DeciderFor(ctx))
    requires HasPair(db, cat, r, c) && EvidenceAbout(db, cat, r, c, [e])
    requires FlagsFor(r.domain, ctx.lists) == ListFlags(false, false, false, false, false)
    requires e.origin == Direct && e.lastSeen == ctx.now && ctx.now > 0 && Active(e, ctx.now) && 0 <= Strength(e) <= 100
    requires c in cat.category && cat.category[c] in ctx.cfg.minScore && Strength(e) >= ctx.cfg.minScore[cat.category[c]]
    ensures exists p :: p in pending && PendingKey(p) == PairOf(cat, r, c) && p.action == Block
  {
    DecidedPairs(rows, db, cat, pending, DeciderFor(ctx), r, c);
    var p :| p in pending && PendingKey(p) == PairOf(cat, r, c);
    DecidedFromTheTables(rows, db, cat, pending, ctx, r, c, p, [e]);
    OneRowBlocks(e, cat.category[c], FlagsFor(r.domain, ctx.lists), ctx.now, ctx.cfg);
  }

  lemma NoNamesNoFlags(domain: string)
    ensures FlagsFor(domain, PLAIN_CONTEXT.lists) == ListFlags(false, false, false, false, false)
  {
  }

  lemma FeedRowIsStrong()
    ensures FEED_EVIDENCE.origin == Direct && FEED_EVIDENCE.lastSeen == PLAIN_CONTEXT.now && PLAIN_CONTEXT.now > 0
    ensures Active(FEED_EVIDENCE, PLAIN_CONTEXT.now) && Strength(FEED_EVIDENCE) == 100
    ensures 10 in CATEGORIES && CATEGORIES[10] in PLAIN_CONTEXT.cfg.minScore && PLAIN_CONTEXT.cfg.minScore[CATEGORIES[10]] == 80
  {
  }

  lemma RevocationIsApplied()
    ensures UpsertDecision(LISTED_BY_FEED, PLATFORM, REVOKED_INDICATOR) == Done && REVOKED_INDICATOR.revoked
  {
  }

  /** One feed lists the domain as malware; an analyst revokes an indicator that has it under
      phishing. The run decides the malware pair, and blocks it. */
  lemma RevokedDomainStaysBlocked(cat: Catalog, rows: seq<Row>, pending: seq<Pending>)
    requires cat.source == SOURCES && cat.category == CATEGORIES && ProperIds(cat)
    requires AnswersQuery(rows, Tables.Upserted(LISTED_BY_FEED, PLATFORM, REVOKED_INDICATOR, NOW), cat)
    requires GroupedBy(pending, rows, DeciderFor(PLAIN_CONTEXT))
    ensures UpsertDecision(LISTED_BY_FEED, PLATFORM, REVOKED_INDICATOR) == Done && REVOKED_INDICATOR.revoked
    ensures exists p :: p in pending && PendingKey(p) == PairOf(cat, LISTED, 10) && p.action == Block
  {
    RevocationIsApplied();
    OnlyTheFeedSpeaks(cat);
    NoNamesNoFlags(LISTED.domain);
    FeedRowIsStrong();
    BlockedByOneRow(rows, Tables.Upserted(LISTED_BY_FEED, PLATFORM, REVOKED_INDICATOR, NOW), cat, pending, PLAIN_CONTEXT, LISTED, 10, FEED_EVIDENCE);
  }
}
