/** Printing a blocklist and reading it back as a feed. */
module RoundTrips {
  import opened Names
  import opened Rules
  import opened Collapsing
  import opened Rendering
  import opened DomainNames
  import opened Feeds
  import opened FeedFacts

  // ----- the scanner gives the printed lines back -----

  lemma {:induction false} PieceBeforeNewline(l: string, rest: string)
    requires '\n' !in l
    ensures Pieces(l + "\n" + rest) == [l] + Pieces(rest)
  {
    var text := l + "\n" + rest;
    if l == "" {
      assert text[0] == '\n' && text[1..] == rest;
    } else {
      assert text[0] == l[0] && text[1..] == l[1..] + "\n" + rest;
      PieceBeforeNewline(l[1..], rest);
      assert l == [l[0]] + l[1..];
    }
  }

  lemma {:induction false} PiecesTerminated(lines: seq<string>)
    requires forall l :: l in lines ==> '\n' !in l
    ensures Pieces(Terminated(lines)) == lines + [""]
  {
    if lines != [] {
      PiecesTerminated(lines[1..]);
      assert lines[0] in lines;
      PieceBeforeNewline(lines[0], Terminated(lines[1..]));
      assert lines == [lines[0]] + lines[1..];
    }
  }

  /** Newline-free lines survive being written and scanned. */
  lemma LinesReadBack(lines: seq<string>)
    requires forall l :: l in lines ==> '\n' !in l
    ensures RawLines(Terminated(lines)) == lines
  {
    PiecesTerminated(lines);
    assert (lines + [""])[..|lines|] == lines;
  }

  // ----- header lines are skipped -----

  /** What a line needs for the reader to get past it. */
  predicate PlainLine(l: string) {
    '\n' !in l && '\0' !in l && Fits(l)
  }

  ghost predicate PlainHeader(h: Header) {
    forall l :: l in HeaderLines(h) ==> PlainLine(l)
  }

  lemma {:induction false} FieldLinesAreComments(fields: seq<Field>)
    ensures forall l :: l in FieldLines(fields) ==> HasPrefix(l, "#")
  {
    if fields != [] { FieldLinesAreComments(fields[..|fields| - 1]); }
  }

  lemma HeaderLinesAreComments(h: Header)
    ensures forall l :: l in HeaderLines(h) ==> HasPrefix(l, "#")
  {
    FieldLinesAreComments(HeaderFields(h));
  }

  lemma CommentLine(env: Env, raw: string)
    requires HasPrefix(raw, "#") && PlainLine(raw)
    ensures Readable(env, raw) && SkipLine(env, raw) && !RejectLine(env, raw)
    ensures LineItems(env, raw) == [] && LineBroad(env, raw) == 0
  {
    var line := DropCR(raw);
    NoTrailing(raw, '\r');
    assert line[0] == '#';
    assert line == "#" + line[1..];
    CommentParses(env, line[1..]);
    assert forall c :: c in line ==> c in raw;
    CommentOutcome(env, raw, ParseLine(env, line));
  }

  lemma CommentOutcome(env: Env, raw: string, parsed: ParsedLine)
    requires parsed == Err(Skip) && Fits(raw) && '\0' !in DropCR(raw)
    ensures ReadableText(env, raw, parsed) && !Rejects(env, parsed, DropCR(raw))
    ensures ItemsOf(env, parsed, DropCR(raw)) == [] && BroadOf(env, parsed, DropCR(raw)) == 0
  {
  }

  /** The lines are readable and have produced this much. */
  ghost predicate Yields(env: Env, raws: seq<string>, items: seq<Item>, skips: nat) {
    && AllReadable(env, raws) && Harvest(env, raws) == items
    && CountSkips(env, raws) == skips && CountRejects(env, raws) == 0 && CountBroad(env, raws) == 0
  }

  lemma YieldsMore(env: Env, raws: seq<string>, items: seq<Item>, skips: nat, raw: string)
    requires Yields(env, raws, items, skips)
    requires Readable(env, raw) && !RejectLine(env, raw) && LineBroad(env, raw) == 0
    ensures Yields(env, raws + [raw], items + LineItems(env, raw), skips + if SkipLine(env, raw) then 1 else 0)
  {
    assert (raws + [raw])[..|raws|] == raws;
    ReadableGrow(env, raws, raw);
  }

  lemma CommentYieldsNothing(env: Env, raws: seq<string>, raw: string)
    requires Yields(env, raws, [], |raws|) && HasPrefix(raw, "#") && PlainLine(raw)
    ensures Yields(env, raws + [raw], [], |raws + [raw]|)
  {
    CommentLine(env, raw);
    YieldsMore(env, raws, [], |raws|, raw);
    NothingAdded(LineItems(env, raw));
  }

  lemma NothingAdded(items: seq<Item>)
    ensures [] + items == items
  {
  }

  lemma YieldsFromNothing(env: Env)
    ensures Yields(env, [], [], 0)
  {
  }

  lemma {:induction false} CommentsYieldNothing(env: Env, raws: seq<string>)
    requires forall l :: l in raws ==> HasPrefix(l, "#") && PlainLine(l)
    ensures Yields(env, raws, [], |raws|)
  {
    if raws == [] {
      YieldsFromNothing(env);
    } else {
      var front, last := raws[..|raws| - 1], raws[|raws| - 1];
      assert raws == front + [last];
      assert last in raws && forall l :: l in front ==> l in raws;
      CommentsYieldNothing(env, front);
      CommentYieldsNothing(env, front, last);
    }
  }

  // ----- body lines come back as the rules they print -----

  function PrintedType(f: Format): MatchType {
    if f == FormatWildcard then Wildcard else Exact
  }

  function PrintedItem(r: Rule, f: Format): Item {
    Item(Rule(r.domain, PrintedType(f)), Line(r, f))
  }

  function PrintedItems(rules: seq<Rule>, f: Format): seq<Item> {
    seq(|rules|, i requires 0 <= i < |rules| => PrintedItem(rules[i], f))
  }

  /** What the database may hold: a canonical name that is not a public suffix. */
  ghost predicate Publishable(env: Env, d: string) {
    Canonical(env, d) && !env.icannSuffix(d)
  }

  lemma BodyLineIsPlain(env: Env, r: Rule, f: Format)
    requires Publishable(env, r.domain)
    ensures PlainLine(Line(r, f)) && DropCR(Line(r, f)) == Line(r, f)
  {
    var d, l := r.domain, Line(r, f);
    ValidNameShape(d);
    forall i | 0 <= i < |l| ensures (l[i] as int) < 0x80 && l[i] != '\n' && l[i] != '\0' && l[i] != '\r' {
      assert l[i] == '*' || l[i] == '.' || l[i] in d;
    }
    ShortAscii(l);
    NoTrailing(l, '\r');
  }

  lemma BodyLineParses(env: Env, r: Rule, f: Format)
    requires Publishable(env, r.domain) && ValidFormat(f)
    ensures ParseLine(env, Line(r, f)) == Ok([Rule(r.domain, PrintedType(f))])
  {
    if f == FormatWildcard {
      StarredNameParses(env, r.domain);
    } else {
      PlainNameParses(env, r.domain);
    }
  }

  lemma OneRuleOutcome(env: Env, raw: string, rule: Rule, parsed: ParsedLine)
    requires parsed == Ok([rule]) && Fits(raw) && '\0' !in raw && DropCR(raw) == raw && !env.icannSuffix(rule.domain)
    ensures ReadableText(env, raw, parsed) && !Rejects(env, parsed, raw)
    ensures ItemsOf(env, parsed, raw) == [Item(rule, raw)] && BroadOf(env, parsed, raw) == 0
  {
    assert [rule][..0] == [];
    assert Offered(env, [], raw) == [] && Suffixes(env, []) == 0;
  }

  lemma BodyLine(env: Env, r: Rule, f: Format)
    requires Publishable(env, r.domain) && ValidFormat(f)
    ensures var raw := Line(r, f);
            && Readable(env, raw) && !RejectLine(env, raw) && !SkipLine(env, raw)
            && LineItems(env, raw) == [PrintedItem(r, f)] && LineBroad(env, raw) == 0
  {
    BodyLineIsPlain(env, r, f);
    BodyLineParses(env, r, f);
    OneRuleOutcome(env, Line(r, f), Rule(r.domain, PrintedType(f)), ParseLine(env, Line(r, f)));
  }

  lemma BodyLineYields(env: Env, raws: seq<string>, items: seq<Item>, skips: nat, r: Rule, f: Format)
    requires Yields(env, raws, items, skips) && ValidFormat(f) && Publishable(env, r.domain)
    ensures Yields(env, raws + [Line(r, f)], items + [PrintedItem(r, f)], skips)
  {
    BodyLine(env, r, f);
    YieldsMore(env, raws, items, skips, Line(r, f));
  }

  lemma PrintedGrow(head: seq<string>, rules: seq<Rule>, r: Rule, f: Format)
    ensures head + Lines(rules + [r], f) == head + Lines(rules, f) + [Line(r, f)]
    ensures PrintedItems(rules + [r], f) == PrintedItems(rules, f) + [PrintedItem(r, f)]
  {
  }

  lemma PrintedEmpty(head: seq<string>, f: Format)
    ensures head + Lines([], f) == head && PrintedItems([], f) == []
  {
  }

  /** Printing rule after rule keeps whatever every single rule keeps. */
  lemma {:induction false} PrintedFold(keeps: (seq<string>, seq<Item>) -> bool, head: seq<string>, rules: seq<Rule>, f: Format)
    requires keeps(head, [])
    requires forall raws, items, r :: r in rules && keeps(raws, items) ==> keeps(raws + [Line(r, f)], items + [PrintedItem(r, f)])
    ensures keeps(head + Lines(rules, f), PrintedItems(rules, f))
  {
    if rules == [] {
      PrintedEmpty(head, f);
    } else {
      var front, last := rules[..|rules| - 1], rules[|rules| - 1];
      assert rules == front + [last] && last in rules;
      PrintedGrow(head, front, last, f);
      PrintedFold(keeps, head, front, f);
    }
  }

  lemma BodyYields(env: Env, head: seq<string>, rules: seq<Rule>, f: Format)
    requires Yields(env, head, [], |head|) && ValidFormat(f)
    requires forall r :: r in rules ==> Publishable(env, r.domain)
    ensures Yields(env, head + Lines(rules, f), PrintedItems(rules, f), |head|)
  {
    var keeps := (raws: seq<string>, items: seq<Item>) => Yields(env, raws, items, |head|);
    forall raws, items, r | r in rules && keeps(raws, items)
      ensures keeps(raws + [Line(r, f)], items + [PrintedItem(r, f)])
    {
      BodyLineYields(env, raws, items, |head|, r, f);
    }
    PrintedFold(keeps, head, rules, f);
  }

  lemma PrintedLinesAreNewlineFree(env: Env, h: Header, rules: seq<Rule>, f: Format)
    requires PlainHeader(h) && forall r :: r in rules ==> Publishable(env, r.domain)
    ensures forall l :: l in HeaderLines(h) + Lines(rules, f) ==> '\n' !in l
  {
    forall i | 0 <= i < |rules| ensures '\n' !in Lines(rules, f)[i] {
      assert rules[i] in rules;
      BodyLineIsPlain(env, rules[i], f);
    }
  }

  lemma {:induction false} WillingSinkTakes(sink: SinkBehaviour, log: seq<Item>, items: seq<Item>)
    requires forall l, it :: sink(l, it)
    ensures Takes(sink, log, items)
  {
    if items != [] { WillingSinkTakes(sink, log, items[..|items| - 1]); }
  }

  ghost predicate ReadBack(p: Progress, items: seq<Item>, headerLines: nat) {
    && p.halt == None && p.log == items
    && p.stats.accepted == |items| && p.stats.rejected == 0 && p.stats.publicSuffix == 0
    && p.stats.skipped == headerLines && p.stats.lines == headerLines + |items|
  }

  lemma LinesReadBackAs(env: Env, sink: SinkBehaviour, text: string, items: seq<Item>, headerLines: nat)
    requires Yields(env, RawLines(text), items, headerLines) && |RawLines(text)| == headerLines + |items|
    requires forall l, it :: sink(l, it)
    ensures ReadBack(Parsed(env, sink, text), items, headerLines)
  {
    ParseSucceedsIff(env, sink, text);
    BooksBalance(env, sink, text);
    WillingSinkTakes(sink, [], items);
  }

  /** Print, then parse: a published file read as a feed gives back exactly the collapsed
      names, in order, all with the match type the format prints; every entry is accepted,
      every header line is skipped, and nothing is rejected. */
  lemma PrintParseRoundTrip(env: Env, sink: SinkBehaviour, h: Header, rules: seq<Rule>, f: Format)
    requires ValidFormat(f) && PlainHeader(h)
    requires forall r :: r in rules ==> Publishable(env, r.domain)
    requires forall l, it :: sink(l, it)
    ensures var body := Rendered(rules, f).value;
            ReadBack(Parsed(env, sink, FileText(h, body)), PrintedItems(Collapsed(rules, f), f), |HeaderLines(h)|)
            && body.entries == |PrintedItems(Collapsed(rules, f), f)|
  {
    var kept, head := Collapsed(rules, f), HeaderLines(h);
    CollapsePreservesCoverage(rules, f, "");
    HeaderLinesAreComments(h);
    CommentsYieldNothing(env, head);
    BodyYields(env, head, kept, f);
    PrintedLinesAreNewlineFree(env, h, kept, f);
    LinesReadBack(head + Lines(kept, f));
    TerminatedConcat(head, Lines(kept, f));
    LinesReadBackAs(env, sink, FileText(h, Rendered(rules, f).value), PrintedItems(kept, f), |head|);
  }
}
