/** internal/policy: score arithmetic and the precedence ladder. Times are nanoseconds,
    with 0 for Go's zero time. */
module Policy {
  import opened Names
  import opened Rules
  import opened RuleOrder
  import opened Sets
  import opened Sorting

  datatype Action = Block | Monitor | Allow

  datatype Origin = Direct | OpenCTI

  datatype Reason =
    | ProtectedAllowlist | TenantAllowlist | TenantDenylist | GlobalAllowlist | OpenCTIRevoked
    | GlobalBlockOverride | ScoreThreshold | BelowThreshold | NoEvidence

  datatype Evidence = Evidence(
    sourceId: string, origin: Origin, trustScore: int, confidence: int,
    lastSeen: int, validUntil: Option<int>, revokedAt: Option<int>)

  datatype ListFlags = ListFlags(
    protectedAllow: bool, tenantAllow: bool, tenantDeny: bool, globalAllow: bool, globalBlock: bool)

  datatype Config = Config(
    defaultAction: Action, minScore: map<string, int>,
    sourceBonus: int, maxBonus: int, penaltyPerDay: int, maxPenalty: int)

  datatype Decision = Decision(action: Action, score: int, independent: nat, reason: Reason, matched: seq<string>)

  datatype Scored = Scored(score: int, independent: nat, matched: seq<string>)

  const DAY: int := 86_400_000_000_000
  const MAX_DURATION: int := 0x7FFF_FFFF_FFFF_FFFF

  // ----- pure helpers -----

  predicate Expired(t: Option<int>, now: int) {
    t.Some? && t.value <= now
  }

  predicate Active(e: Evidence, now: int) {
    !Expired(e.revokedAt, now) && !Expired(e.validUntil, now)
  }

  /** Go's integer division truncates toward zero. */
  function Quotient(a: int, b: int): int
    requires b > 0
  {
    if a >= 0 then a / b else -(-a / b)
  }

  function Strength(e: Evidence): int {
    Quotient(e.trustScore * e.confidence, 100)
  }

  function Min(a: int, b: int): int { if a < b then a else b }

  function Max(a: int, b: int): int { if a < b then b else a }

  function Clamp(v: int, lo: int, hi: int): int { Max(lo, Min(v, hi)) }

  function IndependentBonus(n: nat, cfg: Config): int {
    if n < 2 then 0 else Min((n - 1) * cfg.sourceBonus, cfg.maxBonus)
  }

  /** Whole days since the last sighting; time.Time.Sub saturates. */
  function StalenessPenalty(lastSeen: int, now: int, cfg: Config): int {
    if lastSeen == 0 || now <= lastSeen then 0
    else Min(Min(now - lastSeen, MAX_DURATION) / DAY * cfg.penaltyPerDay, cfg.maxPenalty)
  }

  function RuleName(e: Evidence): string {
    (if e.origin == Direct then "direct" else "opencti") + ":" + e.sourceId
  }

  predicate RevokedByOpenCTI(evidence: seq<Evidence>, now: int) {
    exists e :: e in evidence && e.origin == OpenCTI && Expired(e.revokedAt, now)
  }

  // ----- what the score is, as a function of the set of active rows -----

  function ActiveSet(evidence: seq<Evidence>, now: int): set<Evidence> {
    set e | e in evidence && Active(e, now)
  }

  ghost function Best(a: set<Evidence>): int { Max0(Image(a, Strength)) }

  function LastSeen(e: Evidence): int { e.lastSeen }

  ghost function Newest(a: set<Evidence>): int { Max0(Image(a, LastSeen)) }

  function SourceId(e: Evidence): string { e.sourceId }

  function DirectRows(a: set<Evidence>): set<Evidence> {
    set e | e in a && e.origin == Direct
  }

  /** Only rows of direct origin count as independent confirmations. */
  ghost function DirectSources(a: set<Evidence>): set<string> {
    Image(DirectRows(a), SourceId)
  }

  ghost function RuleNames(a: set<Evidence>): set<string> { Image(a, RuleName) }

  ghost function Total(a: set<Evidence>, now: int, cfg: Config): int {
    Best(a) + IndependentBonus(|DirectSources(a)|, cfg) - StalenessPenalty(Newest(a), now, cfg)
  }

  ghost function ScoreOf(a: set<Evidence>, now: int, cfg: Config): Scored {
    if a == {} then Scored(0, 0, [])
    else Scored(Clamp(Total(a, now, cfg), 0, 100), |DirectSources(a)|, Listing(Less, RuleNames(a)))
  }

  /** First matching rung wins. */
  ghost function Decided(evidence: seq<Evidence>, category: string, flags: ListFlags, now: int, cfg: Config): Decision {
    var s := ScoreOf(ActiveSet(evidence, now), now, cfg);
    var (action, reason) :=
      if flags.protectedAllow then (Allow, ProtectedAllowlist)
      else if flags.tenantAllow then (Allow, TenantAllowlist)
      else if flags.tenantDeny then (Block, TenantDenylist)
      else if flags.globalAllow then (Allow, GlobalAllowlist)
      else if RevokedByOpenCTI(evidence, now) then (Allow, OpenCTIRevoked)
      else if flags.globalBlock then (Block, GlobalBlockOverride)
      else if s.matched == [] then (cfg.defaultAction, NoEvidence)
      else if category in cfg.minScore && s.score >= cfg.minScore[category] then (Block, ScoreThreshold)
      else (cfg.defaultAction, BelowThreshold);
    Decision(action, s.score, s.independent, reason, s.matched)
  }

  // ----- the code -----

  /** score's loop over the rows: running maxima, a set of source ids, the rule list. */
  method Tally(evidence: seq<Evidence>, now: int)
    returns (best: int, newest: int, independent: set<string>, rules: seq<string>)
    ensures var a := ActiveSet(evidence, now);
            best == Best(a) && newest == Newest(a) && independent == DirectSources(a) && forall x :: x in rules <==> x in RuleNames(a)
  {
    best, newest, independent, rules := 0, 0, {}, [];
    ghost var a: set<Evidence> := {};
    for i := 0 to |evidence|
      invariant a == ActiveSet(evidence[..i], now)
      invariant best == Best(a) && newest == Newest(a)
      invariant independent == DirectSources(a)
      invariant forall x :: x in rules <==> x in RuleNames(a)
    {
      var e := evidence[i];
      ActiveStep(evidence, i, now);
      if !Active(e, now) { continue; }
      GrowActive(a, e);
      a := a + {e};
      var s := Strength(e);
      if s > best { best := s; }
      if e.lastSeen > newest { newest := e.lastSeen; }
      if e.origin == Direct { independent := independent + {e.sourceId}; }
      rules := rules + [RuleName(e)];
    }
    assert evidence[..|evidence|] == evidence;
  }

  method Score(evidence: seq<Evidence>, now: int, cfg: Config) returns (r: Scored)
    ensures r == ScoreOf(ActiveSet(evidence, now), now, cfg)
  {
    var best, newest, independent, rules := Tally(evidence, now);
    NoRulesNoEvidence(ActiveSet(evidence, now), rules);
    if |rules| == 0 { return Scored(0, 0, []); }
    MatchedList(RuleNames(ActiveSet(evidence, now)), rules);
    rules := Compact(Sort(Less, rules));
    var total := best + IndependentBonus(|independent|, cfg) - StalenessPenalty(newest, now, cfg);
    return Scored(Clamp(total, 0, 100), |independent|, rules);
  }

  lemma ActiveStep(evidence: seq<Evidence>, i: nat, now: int)
    requires i < |evidence|
    ensures ActiveSet(evidence[..i + 1], now) ==
            ActiveSet(evidence[..i], now) + if Active(evidence[i], now) then {evidence[i]} else {}
  {
    assert evidence[..i + 1] == evidence[..i] + [evidence[i]];
  }

  lemma NoRulesNoEvidence(a: set<Evidence>, rules: seq<string>)
    requires forall x :: x in rules <==> x in RuleNames(a)
    ensures rules == [] <==> a == {}
  {
    if a != {} {
      ImageMember(a, Pick(a), RuleName);
      assert RuleName(Pick(a)) in rules;
    } else if rules != [] {
      assert forall x :: x !in Image(a, RuleName);
      SomeMember(rules);
    }
  }

  lemma MatchedList(names: set<string>, rules: seq<string>)
    requires forall x :: x in rules <==> x in names
    ensures Compact(Sort(Less, rules)) == Listing(Less, names)
  {
    NameOrderIsTotal();
    SortCompactCanonical(Less, rules, rules);
    SortMembers(Less, rules);
    CompactMembers(Sort(Less, rules));
    ListingUnique(Less, names, Compact(Sort(Less, rules)));
  }

  lemma GrowActive(a: set<Evidence>, e: Evidence)
    ensures Best(a + {e}) == Max(Best(a), Strength(e))
    ensures Newest(a + {e}) == Max(Newest(a), e.lastSeen)
    ensures DirectSources(a + {e}) == DirectSources(a) + if e.origin == Direct then {e.sourceId} else {}
    ensures RuleNames(a + {e}) == RuleNames(a) + {RuleName(e)}
  {
    ImageGrow(a, e, Strength);
    Max0Insert(Image(a, Strength), Strength(e));
    ImageGrow(a, e, LastSeen);
    Max0Insert(Image(a, LastSeen), e.lastSeen);
    assert DirectRows(a + {e}) == DirectRows(a) + if e.origin == Direct then {e} else {};
    ImageGrow(DirectRows(a), e, SourceId);
    ImageGrow(a, e, RuleName);
  }

  method Evaluate(evidence: seq<Evidence>, category: string, flags: ListFlags, now: int, cfg: Config) returns (d: Decision)
    ensures d == Decided(evidence, category, flags, now, cfg)
  {
    var s := Score(evidence, now, cfg);
    var base := Decision(Monitor, s.score, s.independent, NoEvidence, s.matched);
    if flags.protectedAllow { return base.(action := Allow, reason := ProtectedAllowlist); }
    if flags.tenantAllow { return base.(action := Allow, reason := TenantAllowlist); }
    if flags.tenantDeny { return base.(action := Block, reason := TenantDenylist); }
    if flags.globalAllow { return base.(action := Allow, reason := GlobalAllowlist); }
    if RevokedByOpenCTI(evidence, now) { return base.(action := Allow, reason := OpenCTIRevoked); }
    if flags.globalBlock { return base.(action := Block, reason := GlobalBlockOverride); }
    if s.matched == [] { return base.(action := cfg.defaultAction, reason := NoEvidence); }
    if category in cfg.minScore && s.score >= cfg.minScore[category] {
      return base.(action := Block, reason := ScoreThreshold);
    }
    return base.(action := cfg.defaultAction, reason := BelowThreshold);
  }

  // ----- properties -----

  /** Order and multiplicity of the rows do not matter. */
  lemma DecisionDependsOnEvidenceSet(e1: seq<Evidence>, e2: seq<Evidence>, category: string, flags: ListFlags, now: int, cfg: Config)
    requires forall e :: e in e1 <==> e in e2
    ensures Decided(e1, category, flags, now, cfg) == Decided(e2, category, flags, now, cfg)
  {
    assert ActiveSet(e1, now) == ActiveSet(e2, now);
  }

  /** What the ladder amounts to when the default is not BLOCK: the protected list and the
      tenant's own allowlist win over everything, the tenant's denylist over everything else,
      and a revocation by an analyst over any number of feeds. */
  lemma BlockedExactlyWhen(evidence: seq<Evidence>, category: string, flags: ListFlags, now: int, cfg: Config)
    requires cfg.defaultAction != Block
    ensures Decided(evidence, category, flags, now, cfg).action == Block <==>
            && !flags.protectedAllow && !flags.tenantAllow
            && (flags.tenantDeny
                || (&& !flags.globalAllow && !RevokedByOpenCTI(evidence, now)
                    && (flags.globalBlock
                        || (&& (exists e :: e in evidence && Active(e, now))
                            && category in cfg.minScore
                            && ScoreOf(ActiveSet(evidence, now), now, cfg).score >= cfg.minScore[category]))))
  {
    MatchedIffActive(ActiveSet(evidence, now), now, cfg);
    assert forall e :: e in ActiveSet(evidence, now) <==> e in evidence && Active(e, now);
  }

  ghost predicate NonNegative(cfg: Config) {
    cfg.sourceBonus >= 0 && cfg.maxBonus >= 0 && cfg.penaltyPerDay >= 0 && cfg.maxPenalty >= 0
  }

  lemma ProductMonotone(a: int, b: int, c: int)
    requires a <= b && c >= 0
    ensures a * c <= b * c
  {
  }

  lemma BonusMonotone(m: nat, n: nat, cfg: Config)
    requires m <= n && NonNegative(cfg)
    ensures IndependentBonus(m, cfg) <= IndependentBonus(n, cfg)
  {
    if m >= 2 {
      ProductMonotone(m - 1, n - 1, cfg.sourceBonus);
    } else if n >= 2 {
      ProductMonotone(0, n - 1, cfg.sourceBonus);
    }
  }

  /** An older sighting or a later clock never lowers the penalty. */
  lemma PenaltyMonotone(seen: int, now: int, seen': int, now': int, cfg: Config)
    requires 0 < seen' <= seen && now <= now' && NonNegative(cfg)
    ensures StalenessPenalty(seen, now, cfg) <= StalenessPenalty(seen', now', cfg)
  {
    var age, age' := Min(now - seen, MAX_DURATION), Min(now' - seen', MAX_DURATION);
    if now' > seen' {
      ProductMonotone(0, age' / DAY, cfg.penaltyPerDay);
      if now > seen { ProductMonotone(age / DAY, age' / DAY, cfg.penaltyPerDay); }
    }
  }

  ghost predicate Sighted(a: set<Evidence>) {
    forall e :: e in a ==> e.lastSeen > 0
  }

  lemma NewestIsSighting(a: set<Evidence>)
    requires a != {} && Sighted(a)
    ensures Newest(a) > 0
  {
    ImageMember(a, Pick(a), LastSeen);
  }

  /** More active rows and an earlier clock can only raise the score. */
  lemma ScoreMonotone(small: set<Evidence>, later: int, big: set<Evidence>, earlier: int, cfg: Config)
    requires small <= big && earlier <= later && NonNegative(cfg) && Sighted(small)
    ensures ScoreOf(small, later, cfg).score <= ScoreOf(big, earlier, cfg).score
  {
    if small != {} {
      ImageSubset(small, big, Strength);
      Max0Subset(Image(small, Strength), Image(big, Strength));
      ImageSubset(small, big, LastSeen);
      Max0Subset(Image(small, LastSeen), Image(big, LastSeen));
      ImageSubset(DirectRows(small), DirectRows(big), SourceId);
      SubsetCard(DirectSources(small), DirectSources(big));
      BonusMonotone(|DirectSources(small)|, |DirectSources(big)|, cfg);
      NewestIsSighting(small);
      PenaltyMonotone(Newest(big), earlier, Newest(small), later, cfg);
    }
  }

  lemma ActiveShrinks(evidence: seq<Evidence>, now: int, now': int)
    requires now <= now'
    ensures ActiveSet(evidence, now') <= ActiveSet(evidence, now)
  {
  }

  /** Decay: with the evidence fixed, the score never rises as time passes. */
  lemma ScoreDecays(evidence: seq<Evidence>, now: int, now': int, cfg: Config)
    requires now <= now' && NonNegative(cfg)
    requires forall e :: e in evidence ==> e.lastSeen > 0
    ensures ScoreOf(ActiveSet(evidence, now'), now', cfg).score <= ScoreOf(ActiveSet(evidence, now), now, cfg).score
  {
    ActiveShrinks(evidence, now, now');
    ScoreMonotone(ActiveSet(evidence, now'), now', ActiveSet(evidence, now), now, cfg);
  }

  lemma MatchedIffActive(a: set<Evidence>, now: int, cfg: Config)
    ensures ScoreOf(a, now, cfg).matched == [] <==> a == {}
  {
    if a != {} {
      ImageMember(a, Pick(a), RuleName);
      NameOrderIsTotal();
      ListingIsSorted(Less, RuleNames(a));
    }
  }

  /** Once time alone has moved a decision away from BLOCK, it never comes back. */
  lemma BlockNeverReturns(evidence: seq<Evidence>, category: string, flags: ListFlags, now: int, now': int, cfg: Config)
    requires now <= now' && NonNegative(cfg) && cfg.defaultAction != Block
    requires forall e :: e in evidence ==> e.lastSeen > 0
    requires Decided(evidence, category, flags, now, cfg).action != Block
    ensures Decided(evidence, category, flags, now', cfg).action != Block
  {
    ScoreDecays(evidence, now, now', cfg);
    ActiveShrinks(evidence, now, now');
    MatchedIffActive(ActiveSet(evidence, now), now, cfg);
    MatchedIffActive(ActiveSet(evidence, now'), now', cfg);
    if RevokedByOpenCTI(evidence, now) {
      assert RevokedByOpenCTI(evidence, now');
    }
  }

  /** Another active row never lowers the score. */
  lemma AddingEvidenceNeverLowers(a: set<Evidence>, e: Evidence, now: int, cfg: Config)
    requires NonNegative(cfg) && Sighted(a)
    ensures ScoreOf(a, now, cfg).score <= ScoreOf(a + {e}, now, cfg).score
  {
    ScoreMonotone(a, now, a + {e}, now, cfg);
  }

  lemma SameTallySameScore(a: set<Evidence>, b: set<Evidence>, now: int, cfg: Config)
    requires a != {} && b != {}
    requires Best(a) == Best(b) && Newest(a) == Newest(b) && DirectSources(a) == DirectSources(b)
    ensures ScoreOf(a, now, cfg).score == ScoreOf(b, now, cfg).score
    ensures ScoreOf(a, now, cfg).independent == ScoreOf(b, now, cfg).independent
  {
  }

  /** The feedback loop is closed: a row that came back through OpenCTI, no stronger and no
      newer than what is already there, adds neither score nor confirmation. */
  lemma EchoThroughOpenCTIAddsNothing(a: set<Evidence>, echo: Evidence, now: int, cfg: Config)
    requires echo.origin == OpenCTI && a != {}
    requires exists e :: e in a && Strength(echo) <= Strength(e)
    requires exists e :: e in a && echo.lastSeen <= e.lastSeen
    ensures ScoreOf(a + {echo}, now, cfg).score == ScoreOf(a, now, cfg).score
    ensures ScoreOf(a + {echo}, now, cfg).independent == ScoreOf(a, now, cfg).independent
  {
    var strong :| strong in a && Strength(echo) <= Strength(strong);
    var recent :| recent in a && echo.lastSeen <= recent.lastSeen;
    GrowActive(a, echo);
    ImageMember(a, strong, Strength);
    ImageMember(a, recent, LastSeen);
    assert echo in a + {echo};
    SameTallySameScore(a + {echo}, a, now, cfg);
  }
}
