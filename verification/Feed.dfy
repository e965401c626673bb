/** internal/feed: reading a feed line by line into a sink, with the statistics the import is
    judged by. */
module Feeds {
  import opened Names
  import opened Rules
  import opened DomainNames

  const MAX_LINE_BYTES := 1048576
  const MAX_BROAD_SAMPLES := 20

  // ----- bufio.Scanner over lines -----

  function Utf8Size(c: char): nat {
    var n := c as int;
    if n < 0x80 then 1 else if n < 0x800 then 2 else if n < 0x10000 then 3 else 4
  }

  function ByteLen(s: string): nat {
    if s == [] then 0 else Utf8Size(s[0]) + ByteLen(s[1..])
  }

  /** The text cut at every newline; the last piece is what follows the last newline. */
  function Pieces(text: string): (r: seq<string>)
    ensures |r| >= 1
  {
    if text == [] then [[]]
    else
      var t := Pieces(text[1..]);
      if text[0] == '\n' then [[]] + t else [[text[0]] + t[0]] + t[1..]
  }

  /** Lines before newlines, and a last unterminated line only if it is not empty. */
  function RawLines(text: string): seq<string> {
    var p := Pieces(text);
    var n := |p| - 1;
    if p[n] == "" then p[..n] else p
  }

  function DropCR(line: string): string {
    TrimSuffix(line, "\r")
  }

  /** A raw line longer than this never fits the scanner's buffer. */
  predicate Fits(raw: string) {
    ByteLen(raw) < MAX_LINE_BYTES
  }

  // ----- the statistics -----

  datatype Reason = PublicSuffixReason | IsIPReason | InvalidReason | UnknownReason

  datatype Stats = Stats(
    lines: nat,
    skipped: nat,
    accepted: nat,
    rejected: nat,
    publicSuffix: nat,
    samples: seq<string>,
    reasons: map<Reason, nat>
  )

  datatype Halt = NotLineOriented | BareTLD | SinkFailed

  datatype Item = Item(rule: Rule, raw: string)

  /** A point during Parse: the counters, the successful sink calls, and the error if it has
      returned one. */
  datatype Progress = Progress(stats: Stats, log: seq<Item>, halt: Option<Halt>)

  const EMPTY := Stats(0, 0, 0, 0, 0, [], map[])

  function Count(reasons: map<Reason, nat>, r: Reason): nat {
    if r in reasons then reasons[r] else 0
  }

  function Bump(reasons: map<Reason, nat>, r: Reason): map<Reason, nat> {
    reasons[r := Count(reasons, r) + 1]
  }

  function TotalReasons(reasons: map<Reason, nat>): nat {
    Count(reasons, PublicSuffixReason) + Count(reasons, IsIPReason) + Count(reasons, InvalidReason) + Count(reasons, UnknownReason)
  }

  function NoteBroad(st: Stats, domain: string): Stats {
    st.(publicSuffix := st.publicSuffix + 1,
        samples := if |st.samples| < MAX_BROAD_SAMPLES then st.samples + [domain] else st.samples,
        reasons := Bump(st.reasons, PublicSuffixReason))
  }

  function ReasonOf(e: ParseError): Reason {
    match e
    case IP => IsIPReason
    case Invalid => InvalidReason
    case Skip => UnknownReason
  }

  // ----- package psl -----

  function NormalizeRaw(env: Env, raw: string): string {
    var s := TrimSpace(ToLower(env, raw));
    TrimPrefix(TrimPrefix(TrimSuffix(TrimSuffix(TrimPrefix(s, "||"), "^"), "."), "*."), ".")
  }

  predicate RawIsSuffix(env: Env, raw: string) {
    var n := NormalizeRaw(env, raw);
    n != "" && env.icannSuffix(n)
  }

  /** The first field that is a public suffix, written the way publicSuffixIn returns it. */
  function BroadField(env: Env, fields: seq<string>): string {
    if fields == [] then ""
    else if RawIsSuffix(env, fields[0]) then ToLower(env, TrimPrefix(fields[0], "*."))
    else BroadField(env, fields[1..])
  }

  // ----- what one rule and one line do -----

  type ParsedLine = Result<seq<Rule>, ParseError>

  /** Whether the sink takes an item after the ones it has taken. */
  type SinkBehaviour = (seq<Item>, Item) -> bool

  function AfterRule(env: Env, sink: SinkBehaviour, p: Progress, r: Rule, line: string): Progress {
    if p.halt.Some? then p
    else if env.icannSuffix(r.domain) then p.(stats := NoteBroad(p.stats, r.domain))
    else if !sink(p.log, Item(r, line)) then p.(halt := Some(SinkFailed))
    else p.(stats := p.stats.(accepted := p.stats.accepted + 1), log := p.log + [Item(r, line)])
  }

  function AfterRules(env: Env, sink: SinkBehaviour, p: Progress, rules: seq<Rule>, line: string): Progress {
    if rules == [] then p
    else AfterRule(env, sink, AfterRules(env, sink, p, rules[..|rules| - 1], line), rules[|rules| - 1], line)
  }

  function AfterError(env: Env, p: Progress, e: ParseError, line: string): Progress {
    if e.Skip? then p.(stats := p.stats.(skipped := p.stats.skipped + 1))
    else
      var broad := BroadField(env, Fields(line));
      if broad != "" && '.' !in broad then p.(halt := Some(BareTLD))
      else if broad != "" then p.(stats := NoteBroad(p.stats, broad))
      else p.(stats := p.stats.(rejected := p.stats.rejected + 1, reasons := Bump(p.stats.reasons, ReasonOf(e))))
  }

  /** The switch on ParseLine's answer. */
  function AfterParsed(env: Env, sink: SinkBehaviour, p: Progress, parsed: ParsedLine, line: string): Progress {
    match parsed
    case Err(e) => AfterError(env, p, e, line)
    case Ok(rules) => AfterRules(env, sink, p, rules, line)
  }

  /** One turn of the scanning loop, given what ParseLine says about the line. */
  function AfterText(env: Env, sink: SinkBehaviour, p: Progress, raw: string, parsed: ParsedLine): Progress {
    if !Fits(raw) then p.(halt := Some(NotLineOriented))
    else
      var q := p.(stats := p.stats.(lines := p.stats.lines + 1));
      if '\0' in DropCR(raw) then q.(halt := Some(NotLineOriented))
      else AfterParsed(env, sink, q, parsed, DropCR(raw))
  }

  function AfterLine(env: Env, sink: SinkBehaviour, p: Progress, raw: string): Progress {
    if p.halt.Some? then p else AfterText(env, sink, p, raw, ParseLine(env, DropCR(raw)))
  }

  function AfterLines(env: Env, sink: SinkBehaviour, raws: seq<string>): Progress {
    if raws == [] then Progress(EMPTY, [], None)
    else AfterLine(env, sink, AfterLines(env, sink, raws[..|raws| - 1]), raws[|raws| - 1])
  }

  function Parsed(env: Env, sink: SinkBehaviour, text: string): Progress {
    AfterLines(env, sink, RawLines(text))
  }

  lemma {:induction false} HaltedRules(env: Env, sink: SinkBehaviour, p: Progress, rules: seq<Rule>, line: string, n: nat)
    requires n <= |rules| && AfterRules(env, sink, p, rules[..n], line).halt.Some?
    ensures AfterRules(env, sink, p, rules, line) == AfterRules(env, sink, p, rules[..n], line)
    decreases |rules|
  {
    if n == |rules| {
      assert rules[..n] == rules;
    } else {
      assert rules[..|rules| - 1][..n] == rules[..n];
      HaltedRules(env, sink, p, rules[..|rules| - 1], line, n);
    }
  }

  lemma {:induction false} HaltedLines(env: Env, sink: SinkBehaviour, raws: seq<string>, n: nat)
    requires n <= |raws| && AfterLines(env, sink, raws[..n]).halt.Some?
    ensures AfterLines(env, sink, raws) == AfterLines(env, sink, raws[..n])
    decreases |raws|
  {
    if n == |raws| {
      assert raws[..n] == raws;
    } else {
      assert raws[..|raws| - 1][..n] == raws[..n];
      HaltedLines(env, sink, raws[..|raws| - 1], n);
    }
  }

  // ----- the methods -----

  /** The receiver of parsed rules. It may refuse an item, depending on what it has taken. */
  class Sink {
    const behaviour: SinkBehaviour
    var log: seq<Item>

    constructor (behaviour: SinkBehaviour)
      ensures this.behaviour == behaviour && log == []
    {
      this.behaviour := behaviour;
      log := [];
    }

    method Take(r: Rule, line: string) returns (ok: bool)
      modifies this
      ensures ok <==> behaviour(old(log), Item(r, line))
      ensures log == if ok then old(log) + [Item(r, line)] else old(log)
    {
      ok := behaviour(log, Item(r, line));
      if ok { log := log + [Item(r, line)]; }
    }
  }

  method PublicSuffixIn(env: Env, line: string) returns (broad: string)
    ensures broad == BroadField(env, Fields(line))
  {
    var fields := Fields(line);
    var i := 0;
    while i < |fields|
      invariant 0 <= i <= |fields|
      invariant BroadField(env, fields) == BroadField(env, fields[i..])
    {
      if RawIsSuffix(env, fields[i]) { return ToLower(env, TrimPrefix(fields[i], "*.")); }
      assert fields[i..][1..] == fields[i + 1..];
      i := i + 1;
    }
    return "";
  }

  /** Hands the rules of one line to the sink. */
  method Deliver(env: Env, sink: Sink, st: Stats, rules: seq<Rule>, line: string) returns (out: Stats, halt: Option<Halt>)
    modifies sink
    ensures Progress(out, sink.log, halt) == AfterRules(env, sink.behaviour, Progress(st, old(sink.log), None), rules, line)
  {
    out, halt := st, None;
    ghost var p := Progress(st, sink.log, None);
    for i := 0 to |rules|
      invariant Progress(out, sink.log, None) == AfterRules(env, sink.behaviour, p, rules[..i], line)
    {
      assert rules[..i + 1][..i] == rules[..i];
      if env.icannSuffix(rules[i].domain) {
        out := NoteBroad(out, rules[i].domain);
        continue;
      }
      var ok := sink.Take(rules[i], line);
      if !ok {
        halt := Some(SinkFailed);
        HaltedRules(env, sink.behaviour, p, rules, line, i + 1);
        return;
      }
      out := out.(accepted := out.accepted + 1);
    }
    assert rules[..|rules|] == rules;
  }

  /** What the loop does with a line that ParseLine refused. */
  method HandleError(env: Env, st: Stats, e: ParseError, line: string) returns (out: Stats, halt: Option<Halt>)
    ensures forall log :: Progress(out, log, halt) == AfterError(env, Progress(st, log, None), e, line)
  {
    out, halt := st, None;
    if e.Skip? {
      out := out.(skipped := out.skipped + 1);
      return;
    }
    var broad := PublicSuffixIn(env, line);
    if broad != "" {
      if '.' !in broad { return out, Some(BareTLD); }
      out := NoteBroad(out, broad);
      return;
    }
    out := out.(rejected := out.rejected + 1, reasons := Bump(out.reasons, ReasonOf(e)));
  }

  /** The switch on ParseLine's answer. */
  method HandleParsed(env: Env, sink: Sink, st: Stats, parsed: ParsedLine, line: string) returns (out: Stats, halt: Option<Halt>)
    modifies sink
    ensures Progress(out, sink.log, halt) == AfterParsed(env, sink.behaviour, Progress(st, old(sink.log), None), parsed, line)
  {
    if parsed.Err? {
      out, halt := HandleError(env, st, parsed.error, line);
    } else {
      out, halt := Deliver(env, sink, st, parsed.value, line);
    }
  }

  /** One turn of the scanning loop; parsing is pure, so it may happen before the guards. */
  method HandleText(env: Env, sink: Sink, st: Stats, raw: string, parsed: ParsedLine) returns (out: Stats, halt: Option<Halt>)
    modifies sink
    ensures Progress(out, sink.log, halt) == AfterText(env, sink.behaviour, Progress(st, old(sink.log), None), raw, parsed)
  {
    out, halt := st, None;
    if !Fits(raw) { return out, Some(NotLineOriented); }
    var line := DropCR(raw);
    out := out.(lines := out.lines + 1);
    if '\0' in line { return out, Some(NotLineOriented); }
    out, halt := HandleParsed(env, sink, out, parsed, line);
  }

  lemma OneMoreLine(env: Env, sink: SinkBehaviour, raws: seq<string>, i: nat)
    requires i < |raws|
    ensures AfterLines(env, sink, raws[..i + 1]) == AfterLine(env, sink, AfterLines(env, sink, raws[..i]), raws[i])
  {
    assert raws[..i + 1][..i] == raws[..i];
  }

  method Parse(env: Env, sink: Sink, text: string) returns (st: Stats, halt: Option<Halt>)
    requires sink.log == []
    modifies sink
    ensures Progress(st, sink.log, halt) == Parsed(env, sink.behaviour, text)
  {
    st, halt := EMPTY, None;
    var raws := RawLines(text);
    for i := 0 to |raws|
      invariant Progress(st, sink.log, None) == AfterLines(env, sink.behaviour, raws[..i])
    {
      OneMoreLine(env, sink.behaviour, raws, i);
      st, halt := HandleText(env, sink, st, raws[i], ParseLine(env, DropCR(raws[i])));
      if halt.Some? {
        HaltedLines(env, sink.behaviour, raws, i + 1);
        return;
      }
    }
    assert raws[..|raws|] == raws;
    halt := None;
  }
}
