/** What a parse of any feed guarantees: its books balance, its counters count lines, and it
    succeeds exactly when every line is readable and the sink takes every rule. */
module FeedFacts {
  import opened Names
  import opened Rules
  import opened DomainNames
  import opened Feeds

  // ----- the books balance, whatever the input -----

  ghost predicate Balanced(env: Env, p: Progress) {
    && p.stats.accepted == |p.log|
    && TotalReasons(p.stats.reasons) == p.stats.rejected + p.stats.publicSuffix
    && Count(p.stats.reasons, UnknownReason) == 0
    && Count(p.stats.reasons, PublicSuffixReason) == p.stats.publicSuffix
    && |p.stats.samples| == (if p.stats.publicSuffix < MAX_BROAD_SAMPLES then p.stats.publicSuffix else MAX_BROAD_SAMPLES)
    && forall it :: it in p.log ==> ValidName(it.rule.domain) && !env.icannSuffix(it.rule.domain)
  }

  lemma NoteBroadKeepsBalance(env: Env, p: Progress, domain: string)
    requires Balanced(env, p)
    ensures Balanced(env, p.(stats := NoteBroad(p.stats, domain)))
  {
  }

  lemma RuleKeepsBalance(env: Env, sink: SinkBehaviour, p: Progress, r: Rule, line: string)
    requires Balanced(env, p) && ValidName(r.domain)
    ensures Balanced(env, AfterRule(env, sink, p, r, line))
  {
    NoteBroadKeepsBalance(env, p, r.domain);
  }

  lemma {:induction false} RulesKeepBalance(env: Env, sink: SinkBehaviour, p: Progress, rules: seq<Rule>, line: string)
    requires Balanced(env, p) && forall r :: r in rules ==> ValidName(r.domain)
    ensures Balanced(env, AfterRules(env, sink, p, rules, line))
  {
    if rules != [] {
      var n := |rules| - 1;
      assert forall r :: r in rules[..n] ==> r in rules;
      RulesKeepBalance(env, sink, p, rules[..n], line);
      RuleKeepsBalance(env, sink, AfterRules(env, sink, p, rules[..n], line), rules[n], line);
    }
  }

  lemma RejectKeepsBalance(env: Env, p: Progress, r: Reason)
    requires Balanced(env, p) && r in {IsIPReason, InvalidReason}
    ensures Balanced(env, p.(stats := p.stats.(rejected := p.stats.rejected + 1, reasons := Bump(p.stats.reasons, r))))
  {
  }

  lemma ErrorKeepsBalance(env: Env, p: Progress, e: ParseError, line: string)
    requires Balanced(env, p)
    ensures Balanced(env, AfterError(env, p, e, line))
  {
    if !e.Skip? {
      NoteBroadKeepsBalance(env, p, BroadField(env, Fields(line)));
      RejectKeepsBalance(env, p, ReasonOf(e));
    }
  }

  ghost predicate GoodRules(parsed: ParsedLine) {
    parsed.Ok? ==> forall r :: r in parsed.value ==> ValidName(r.domain)
  }

  lemma ParsedKeepsBalance(env: Env, sink: SinkBehaviour, p: Progress, parsed: ParsedLine, line: string)
    requires Balanced(env, p) && GoodRules(parsed)
    ensures Balanced(env, AfterParsed(env, sink, p, parsed, line))
  {
    match parsed
    case Ok(rules) => RulesKeepBalance(env, sink, p, rules, line);
    case Err(e) => ErrorKeepsBalance(env, p, e, line);
  }

  lemma CountedLineKeepsBalance(env: Env, p: Progress)
    requires Balanced(env, p)
    ensures Balanced(env, p.(stats := p.stats.(lines := p.stats.lines + 1)))
  {
  }

  lemma HaltKeepsBalance(env: Env, p: Progress, h: Halt)
    requires Balanced(env, p)
    ensures Balanced(env, p.(halt := Some(h)))
  {
  }

  lemma ParseLineGivesGoodRules(env: Env, line: string)
    ensures GoodRules(ParseLine(env, line))
  {
    if ParseLine(env, line).Ok? { ParsedNamesAreValid(env, line); }
  }

  lemma TextKeepsBalance(env: Env, sink: SinkBehaviour, p: Progress, raw: string, parsed: ParsedLine)
    requires Balanced(env, p) && GoodRules(parsed)
    ensures Balanced(env, AfterText(env, sink, p, raw, parsed))
  {
    if !Fits(raw) {
      HaltKeepsBalance(env, p, NotLineOriented);
    } else {
      var q := p.(stats := p.stats.(lines := p.stats.lines + 1));
      CountedLineKeepsBalance(env, p);
      if '\0' in DropCR(raw) {
        HaltKeepsBalance(env, q, NotLineOriented);
      } else {
        ParsedKeepsBalance(env, sink, q, parsed, DropCR(raw));
      }
    }
  }

  lemma LineKeepsBalance(env: Env, sink: SinkBehaviour, p: Progress, raw: string)
    requires Balanced(env, p)
    ensures Balanced(env, AfterLine(env, sink, p, raw))
  {
    ParseLineGivesGoodRules(env, DropCR(raw));
    TextKeepsBalance(env, sink, p, raw, ParseLine(env, DropCR(raw)));
  }

  lemma {:induction false} LinesKeepBalance(env: Env, sink: SinkBehaviour, raws: seq<string>)
    ensures Balanced(env, AfterLines(env, sink, raws))
  {
    if raws != [] {
      LinesKeepBalance(env, sink, raws[..|raws| - 1]);
      LineKeepsBalance(env, sink, AfterLines(env, sink, raws[..|raws| - 1]), raws[|raws| - 1]);
    }
  }

  /** On every input and for every sink, even when Parse gives up half way: the accepted count
      is the number of successful sink calls, the reasons add up to rejected plus public
      suffixes, and no public suffix or invalid name ever reached the sink. */
  lemma BooksBalance(env: Env, sink: SinkBehaviour, text: string)
    ensures Balanced(env, Parsed(env, sink, text))
  {
    LinesKeepBalance(env, sink, RawLines(text));
  }

  // ----- what the lines mean, one by one -----

  /** The items one line offers to the sink. */
  function Offered(env: Env, rules: seq<Rule>, line: string): seq<Item> {
    if rules == [] then []
    else
      var n := |rules| - 1;
      Offered(env, rules[..n], line) + if env.icannSuffix(rules[n].domain) then [] else [Item(rules[n], line)]
  }

  function ItemsOf(env: Env, parsed: ParsedLine, line: string): seq<Item> {
    match parsed
    case Err(_) => []
    case Ok(rules) => Offered(env, rules, line)
  }

  function LineItems(env: Env, raw: string): seq<Item> {
    ItemsOf(env, ParseLine(env, DropCR(raw)), DropCR(raw))
  }

  function Harvest(env: Env, raws: seq<string>): seq<Item> {
    if raws == [] then [] else Harvest(env, raws[..|raws| - 1]) + LineItems(env, raws[|raws| - 1])
  }

  predicate Rejects(env: Env, parsed: ParsedLine, line: string) {
    parsed.Err? && !parsed.error.Skip? && BroadField(env, Fields(line)) == ""
  }

  /** A refused line whose first suffix-like field has no dot: a bare top-level domain. */
  predicate Bare(env: Env, parsed: ParsedLine, line: string) {
    parsed.Err? && !parsed.error.Skip? && BroadField(env, Fields(line)) != "" && '.' !in BroadField(env, Fields(line))
  }

  /** How many of the rules are themselves public suffixes. */
  function Suffixes(env: Env, rules: seq<Rule>): nat {
    if rules == [] then 0 else Suffixes(env, rules[..|rules| - 1]) + if env.icannSuffix(rules[|rules| - 1].domain) then 1 else 0
  }

  /** The public suffixes one line contributes: a refused line at most one. */
  function BroadOf(env: Env, parsed: ParsedLine, line: string): nat {
    match parsed
    case Ok(rules) => Suffixes(env, rules)
    case Err(e) => if e.Skip? || BroadField(env, Fields(line)) == "" then 0 else 1
  }

  function LineBroad(env: Env, raw: string): nat {
    BroadOf(env, ParseLine(env, DropCR(raw)), DropCR(raw))
  }

  predicate SkipLine(env: Env, raw: string) {
    ParseLine(env, DropCR(raw)) == Err(Skip)
  }

  predicate RejectLine(env: Env, raw: string) {
    Rejects(env, ParseLine(env, DropCR(raw)), DropCR(raw))
  }

  predicate ReadableText(env: Env, raw: string, parsed: ParsedLine) {
    Fits(raw) && '\0' !in DropCR(raw) && !Bare(env, parsed, DropCR(raw))
  }

  predicate Readable(env: Env, raw: string) {
    ReadableText(env, raw, ParseLine(env, DropCR(raw)))
  }

  function CountSkips(env: Env, raws: seq<string>): nat {
    if raws == [] then 0 else CountSkips(env, raws[..|raws| - 1]) + if SkipLine(env, raws[|raws| - 1]) then 1 else 0
  }

  function CountBroad(env: Env, raws: seq<string>): nat {
    if raws == [] then 0 else CountBroad(env, raws[..|raws| - 1]) + LineBroad(env, raws[|raws| - 1])
  }

  function CountRejects(env: Env, raws: seq<string>): nat {
    if raws == [] then 0 else CountRejects(env, raws[..|raws| - 1]) + if RejectLine(env, raws[|raws| - 1]) then 1 else 0
  }

  /** The sink, having taken `log`, takes these items one after the other. */
  predicate Takes(sink: SinkBehaviour, log: seq<Item>, items: seq<Item>) {
    items == [] || (Takes(sink, log, items[..|items| - 1]) && sink(log + items[..|items| - 1], items[|items| - 1]))
  }

  lemma {:induction false} TakesConcat(sink: SinkBehaviour, log: seq<Item>, a: seq<Item>, b: seq<Item>)
    ensures Takes(sink, log, a + b) <==> Takes(sink, log, a) && Takes(sink, log + a, b)
  {
    if b == [] {
      assert a + b == a;
    } else {
      var n := |b| - 1;
      assert (a + b)[..|a + b| - 1] == a + b[..n];
      assert log + (a + b[..n]) == log + a + b[..n];
      TakesConcat(sink, log, a, b[..n]);
    }
  }

  /** Where a stretch of parsing that offers `items` from progress p must end. */
  ghost predicate Outcome(sink: SinkBehaviour, p: Progress, items: seq<Item>, q: Progress) {
    && (q.halt.None? ==> q.log == p.log + items && Takes(sink, p.log, items))
    && (q.halt == Some(SinkFailed) ==> !Takes(sink, p.log, items))
    && q.log <= p.log + items
  }

  lemma {:induction false} RulesOutcome(env: Env, sink: SinkBehaviour, p: Progress, rules: seq<Rule>, line: string)
    requires p.halt.None?
    ensures var q := AfterRules(env, sink, p, rules, line);
            Outcome(sink, p, Offered(env, rules, line), q) && q.halt in {None, Some(SinkFailed)}
            && q.stats.lines == p.stats.lines && q.stats.skipped == p.stats.skipped && q.stats.rejected == p.stats.rejected
            && (q.halt.None? ==> q.stats.publicSuffix == p.stats.publicSuffix + Suffixes(env, rules))
  {
    if rules == [] {
      assert p.log + [] == p.log;
    } else {
      var n := |rules| - 1;
      RulesOutcome(env, sink, p, rules[..n], line);
      var part, it := Offered(env, rules[..n], line), Item(rules[n], line);
      if env.icannSuffix(rules[n].domain) {
        assert part + [] == part;
      } else {
        OutcomeExtend(sink, p, part, it, AfterRules(env, sink, p, rules[..n], line));
      }
    }
  }

  lemma OutcomeExtend(sink: SinkBehaviour, p: Progress, part: seq<Item>, it: Item, q: Progress)
    requires Outcome(sink, p, part, q) && q.halt in {None, Some(SinkFailed)}
    ensures q.halt.None? ==> q.log + [it] == p.log + (part + [it])
    ensures q.halt.None? ==> (Takes(sink, p.log, part + [it]) <==> sink(q.log, it))
    ensures q.halt.Some? ==> !Takes(sink, p.log, part + [it])
    ensures q.log <= p.log + (part + [it])
  {
    assert (part + [it])[..|part + [it]| - 1] == part;
    assert p.log + (part + [it]) == p.log + part + [it];
  }

  ghost predicate CountedAs(skips: bool, rejects: bool, broad: nat, p: Progress, q: Progress) {
    && q.stats.lines == p.stats.lines + 1
    && q.stats.skipped == p.stats.skipped + (if skips then 1 else 0)
    && q.stats.rejected == p.stats.rejected + (if rejects then 1 else 0)
    && q.stats.publicSuffix == p.stats.publicSuffix + broad
  }

  ghost predicate Counted(env: Env, raw: string, p: Progress, q: Progress) {
    CountedAs(SkipLine(env, raw), RejectLine(env, raw), LineBroad(env, raw), p, q)
  }

  /** The switch on one parsed line. */
  lemma ParsedOutcome(env: Env, sink: SinkBehaviour, p: Progress, parsed: ParsedLine, line: string)
    requires p.halt.None?
    ensures var q := AfterParsed(env, sink, p, parsed, line);
            && Outcome(sink, p, ItemsOf(env, parsed, line), q)
            && (q.halt in {None, Some(SinkFailed)} <==> !Bare(env, parsed, line))
            && (q.halt.None? ==>
                  && q.stats.lines == p.stats.lines
                  && q.stats.skipped == p.stats.skipped + (if parsed == Err(Skip) then 1 else 0)
                  && q.stats.rejected == p.stats.rejected + (if Rejects(env, parsed, line) then 1 else 0)
                  && q.stats.publicSuffix == p.stats.publicSuffix + BroadOf(env, parsed, line))
  {
    match parsed
    case Ok(rules) => RulesOutcome(env, sink, p, rules, line);
    case Err(e) => NothingOffered(sink, p, AfterError(env, p, e, line));
  }

  lemma TextOutcome(env: Env, sink: SinkBehaviour, p: Progress, raw: string, parsed: ParsedLine)
    requires p.halt.None?
    ensures var q := AfterText(env, sink, p, raw, parsed);
            && Outcome(sink, p, ItemsOf(env, parsed, DropCR(raw)), q)
            && (q.halt in {None, Some(SinkFailed)} <==> ReadableText(env, raw, parsed))
            && (q.halt.None? ==> CountedAs(parsed == Err(Skip), Rejects(env, parsed, DropCR(raw)), BroadOf(env, parsed, DropCR(raw)), p, q))
  {
    var line := DropCR(raw);
    var q := p.(stats := p.stats.(lines := p.stats.lines + 1));
    if Fits(raw) && '\0' !in line {
      ParsedOutcome(env, sink, q, parsed, line);
      OutcomeIgnoresStats(sink, q, p, ItemsOf(env, parsed, line), AfterParsed(env, sink, q, parsed, line));
    } else {
      PrefixOutcome(sink, p, ItemsOf(env, parsed, line), AfterText(env, sink, p, raw, parsed));
    }
  }

  lemma LineOutcome(env: Env, sink: SinkBehaviour, p: Progress, raw: string)
    requires p.halt.None?
    ensures var q := AfterLine(env, sink, p, raw);
            && Outcome(sink, p, LineItems(env, raw), q)
            && (q.halt in {None, Some(SinkFailed)} <==> Readable(env, raw))
            && (q.halt.None? ==> Counted(env, raw, p, q))
  {
    TextOutcome(env, sink, p, raw, ParseLine(env, DropCR(raw)));
  }

  lemma OutcomeIgnoresStats(sink: SinkBehaviour, a: Progress, b: Progress, items: seq<Item>, q: Progress)
    requires Outcome(sink, a, items, q) && a.log == b.log
    ensures Outcome(sink, b, items, q)
  {
  }

  lemma NothingOffered(sink: SinkBehaviour, p: Progress, q: Progress)
    requires q.log == p.log && q.halt != Some(SinkFailed)
    ensures Outcome(sink, p, [], q)
  {
    assert p.log + [] == p.log;
  }

  lemma PrefixOutcome(sink: SinkBehaviour, p: Progress, items: seq<Item>, q: Progress)
    requires q.log == p.log && q.halt == Some(NotLineOriented)
    ensures Outcome(sink, p, items, q)
  {
  }

  ghost predicate AllReadable(env: Env, raws: seq<string>) {
    forall raw :: raw in raws ==> Readable(env, raw)
  }

  ghost predicate AllCounted(env: Env, raws: seq<string>, p: Progress) {
    && p.stats.lines == |raws|
    && p.stats.skipped == CountSkips(env, raws)
    && p.stats.rejected == CountRejects(env, raws)
    && p.stats.publicSuffix == CountBroad(env, raws)
  }

  /** What parsing some lines must lead to, in terms of the lines alone. */
  ghost predicate Faithful(env: Env, sink: SinkBehaviour, raws: seq<string>, p: Progress) {
    && (p.halt.None? <==> AllReadable(env, raws) && Takes(sink, [], Harvest(env, raws)))
    && (p.halt.None? ==> p.log == Harvest(env, raws) && AllCounted(env, raws, p))
    && p.log <= Harvest(env, raws)
  }

  lemma ReadableGrow(env: Env, raws: seq<string>, raw: string)
    ensures AllReadable(env, raws + [raw]) <==> AllReadable(env, raws) && Readable(env, raw)
  {
    assert forall x :: x in raws + [raw] <==> x in raws || x == raw;
  }

  lemma HarvestGrow(env: Env, sink: SinkBehaviour, raws: seq<string>, raw: string)
    ensures Harvest(env, raws + [raw]) == Harvest(env, raws) + LineItems(env, raw)
    ensures Takes(sink, [], Harvest(env, raws + [raw])) <==>
            Takes(sink, [], Harvest(env, raws)) && Takes(sink, Harvest(env, raws), LineItems(env, raw))
  {
    assert (raws + [raw])[..|raws|] == raws;
    assert [] + Harvest(env, raws) == Harvest(env, raws);
    TakesConcat(sink, [], Harvest(env, raws), LineItems(env, raw));
  }

  lemma CountsGrow(env: Env, raws: seq<string>, raw: string, p: Progress, q: Progress)
    requires AllCounted(env, raws, p) && Counted(env, raw, p, q)
    ensures AllCounted(env, raws + [raw], q)
  {
    assert (raws + [raw])[..|raws|] == raws;
  }

  lemma FaithfulHalted(env: Env, sink: SinkBehaviour, raws: seq<string>, raw: string, p: Progress)
    requires Faithful(env, sink, raws, p) && p.halt.Some?
    ensures Faithful(env, sink, raws + [raw], p)
  {
    ReadableGrow(env, raws, raw);
    HarvestGrow(env, sink, raws, raw);
  }

  lemma FaithfulRunning(env: Env, sink: SinkBehaviour, raws: seq<string>, raw: string, p: Progress, q: Progress)
    requires Faithful(env, sink, raws, p) && p.halt.None?
    requires Outcome(sink, p, LineItems(env, raw), q)
    requires q.halt in {None, Some(SinkFailed)} <==> Readable(env, raw)
    requires q.halt.None? ==> Counted(env, raw, p, q)
    ensures Faithful(env, sink, raws + [raw], q)
  {
    ReadableGrow(env, raws, raw);
    HarvestGrow(env, sink, raws, raw);
    if q.halt.None? { CountsGrow(env, raws, raw, p, q); }
  }

  lemma NextLineIsFaithful(env: Env, sink: SinkBehaviour, raws: seq<string>, raw: string, p: Progress)
    requires Faithful(env, sink, raws, p)
    ensures Faithful(env, sink, raws + [raw], AfterLine(env, sink, p, raw))
  {
    if p.halt.Some? {
      FaithfulHalted(env, sink, raws, raw, p);
    } else {
      LineOutcome(env, sink, p, raw);
      FaithfulRunning(env, sink, raws, raw, p, AfterLine(env, sink, p, raw));
    }
  }

  lemma {:induction false} LinesAreFaithful(env: Env, sink: SinkBehaviour, raws: seq<string>)
    ensures Faithful(env, sink, raws, AfterLines(env, sink, raws))
  {
    if raws != [] {
      var n := |raws| - 1;
      LinesAreFaithful(env, sink, raws[..n]);
      NextLineIsFaithful(env, sink, raws[..n], raws[n], AfterLines(env, sink, raws[..n]));
      assert raws == raws[..n] + [raws[n]];
    }
  }

  /** Parse succeeds exactly when every line is readable and the sink takes everything the
      feed offers; then its counters count lines and the sink holds the harvest, in order.
      When it gives up, the sink holds a prefix of the harvest. */
  lemma ParseSucceedsIff(env: Env, sink: SinkBehaviour, text: string)
    ensures var p, raws := Parsed(env, sink, text), RawLines(text);
            && (p.halt.None? <==> AllReadable(env, raws) && Takes(sink, [], Harvest(env, raws)))
            && (p.halt.None? ==> p.log == Harvest(env, raws) && AllCounted(env, raws, p))
            && p.log <= Harvest(env, raws)
  {
    LinesAreFaithful(env, sink, RawLines(text));
  }

  // ----- short lines -----

  lemma {:induction false} ShortAscii(s: string)
    requires forall i :: 0 <= i < |s| ==> (s[i] as int) < 0x80
    ensures ByteLen(s) == |s|
  {
    if s != "" { ShortAscii(s[1..]); }
  }

  lemma NoTrailing(s: string, c: char)
    ensures HasSuffix(s, [c]) <==> s != "" && s[|s| - 1] == c
  {
    if s != "" { assert s[|s| - 1..] == [s[|s| - 1]]; }
  }
}
