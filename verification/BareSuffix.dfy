/** The guard of feed.Parse against a bare top-level domain: when it stops an import, and which
    spellings of the same suffix it lets through. */
module BareSuffixes {
  import opened Names
  import opened Rules
  import opened DomainNames
  import opened Feeds
  import opened FeedFacts

  // ----- what a line names, and what the guard looks at -----

  /** The names a line puts forward once comment, wildcard marker and Adblock syntax are off. */
  function NamesIn(env: Env, line: string): seq<string> {
    var s := StripComment(line);
    var f := Fields(s);
    if s == "" then []
    else if HasPrefix(s, "||") then [Trimmed(AdblockName(s[2..]))]
    else if |f| == 1 then [Trimmed(TokenName(f[0]))]
    else if |f| > 1 && IsIP(env, f[0]) then seq(|f| - 1, i requires 0 <= i < |f| - 1 => Trimmed(TokenName(f[i + 1])))
    else []
  }

  /** The first field that reads as a public suffix, as it stands in the raw line. */
  function FirstSuffix(env: Env, fields: seq<string>): Option<string> {
    if fields == [] then None
    else if RawIsSuffix(env, fields[0]) then Some(fields[0])
    else FirstSuffix(env, fields[1..])
  }

  /** What is left of a raw field when a leading marker is taken off. */
  function Unstarred(env: Env, field: string): string {
    ToLower(env, TrimPrefix(field, "*."))
  }

  lemma {:induction false} BroadFieldIsFirst(env: Env, fields: seq<string>)
    ensures BroadField(env, fields) ==
            match FirstSuffix(env, fields)
            case None => ""
            case Some(f) => Unstarred(env, f)
  {
    if fields != [] { BroadFieldIsFirst(env, fields[1..]); }
  }

  // ----- the three outcomes of a refused line -----

  /** A line that gets as far as the guard: short, without NUL, refused, and not a comment. */
  ghost predicate ReachesGuard(env: Env, raw: string) {
    Fits(raw) && '\0' !in DropCR(raw) && ParseLine(env, DropCR(raw)).Err? && ParseLine(env, DropCR(raw)) != Err(Skip)
  }

  predicate NoDotLeft(env: Env, field: string) {
    Unstarred(env, field) != "" && '.' !in Unstarred(env, field)
  }

  predicate DotLeft(env: Env, field: string) {
    '.' in Unstarred(env, field)
  }

  datatype Verdict = StopsImport | CountedAsSuffix | PlainReject

  /** What the guard makes of the raw fields. */
  function VerdictOn(env: Env, fields: seq<string>): Verdict {
    match FirstSuffix(env, fields)
    case None => PlainReject
    case Some(f) => if DotLeft(env, f) then CountedAsSuffix else if NoDotLeft(env, f) then StopsImport else PlainReject
  }

  /** How parsing goes on after a line of each kind. */
  predicate Shows(p: Progress, q: Progress, v: Verdict) {
    && q.log == p.log
    && match v
       case StopsImport => q.halt == Some(BareTLD)
       case CountedAsSuffix => q.halt == None && q.stats.publicSuffix == p.stats.publicSuffix + 1 && q.stats.rejected == p.stats.rejected
       case PlainReject => q.halt == None && q.stats.publicSuffix == p.stats.publicSuffix && q.stats.rejected == p.stats.rejected + 1
  }

  lemma ErrorShows(env: Env, p: Progress, e: ParseError, line: string, v: Verdict)
    requires p.halt.None? && e != Skip
    ensures Shows(p, AfterError(env, p, e, line), v) <==> v == VerdictOn(env, Fields(line))
  {
    BroadFieldIsFirst(env, Fields(line));
  }

  lemma RefusedText(env: Env, sink: SinkBehaviour, p: Progress, raw: string, parsed: ParsedLine, v: Verdict)
    requires p.halt.None? && Fits(raw) && '\0' !in DropCR(raw) && parsed.Err? && parsed != Err(Skip)
    ensures Shows(p, AfterText(env, sink, p, raw, parsed), v) <==> v == VerdictOn(env, Fields(DropCR(raw)))
  {
    ErrorShows(env, p.(stats := p.stats.(lines := p.stats.lines + 1)), parsed.error, DropCR(raw), v);
  }

  /** The guard, exactly, on every refused line, whatever name the line puts forward. The
      import stops if and only if the first raw field that reads as a public suffix has no dot
      left once a leading marker is off; the line is counted as a suffix if and only if that
      field has a dot left; in every other case it is an ordinary rejected line. */
  lemma GuardExactly(env: Env, sink: SinkBehaviour, p: Progress, raw: string, v: Verdict)
    requires p.halt.None? && ReachesGuard(env, raw)
    ensures Shows(p, AfterLine(env, sink, p, raw), v) <==> v == VerdictOn(env, Fields(DropCR(raw)))
  {
    RefusedText(env, sink, p, raw, ParseLine(env, DropCR(raw)), v);
  }

  // ----- seven spellings of one bare suffix -----

  datatype Spelling =
    | Plain
    | Starred
    | Barred
    | FinalDot
    | LeadingDot
    | Commented(note: string)
    | Modified(modifier: string)

  function Spelled(sp: Spelling, t: string): string {
    match sp
    case Plain => t
    case Starred => "*." + t
    case Barred => "||" + t + "^"
    case FinalDot => t + "."
    case LeadingDot => "." + t
    case Commented(note) => t + "#" + note
    case Modified(m) => "||" + t + "^$" + m
  }

  function SpelledVerdict(sp: Spelling): Verdict {
    match sp
    case Plain => StopsImport
    case Starred => StopsImport
    case Barred => StopsImport
    case FinalDot => CountedAsSuffix
    case LeadingDot => CountedAsSuffix
    case Commented(_) => PlainReject
    case Modified(_) => PlainReject
  }

  /** A suffix of one label, such as a top-level domain, that IDNA leaves alone. */
  ghost predicate BareSuffix(env: Env, t: string) {
    ValidLabel(t) && env.icannSuffix(t) && !IsIP(env, t) && env.toASCII(t) == Some(t)
  }

  /** Public suffixes are made of host characters. */
  ghost predicate SuffixesAreNames(env: Env) {
    forall n :: env.icannSuffix(n) ==> DottedHostText(n)
  }

  predicate Extra(s: string) {
    HostText(s) && 0 < |s| < 1000
  }

  predicate GoodSpelling(sp: Spelling) {
    (sp.Commented? ==> Extra(sp.note)) && (sp.Modified? ==> Extra(sp.modifier))
  }

  predicate FieldChar(c: char) {
    HostRune(c) || c in ".*|^#$"
  }

  lemma SpelledChars(sp: Spelling, t: string)
    requires ValidLabel(t) && GoodSpelling(sp)
    ensures FieldString(Spelled(sp, t))
    ensures 0 < |Spelled(sp, t)| < 2000
  {
    forall c | c in t ensures FieldChar(c) { }
    forall i | 0 <= i < |Spelled(sp, t)| ensures FieldChar(Spelled(sp, t)[i]) {
      var c := Spelled(sp, t)[i];
      match sp
      case Commented(note) => assert c in t || c == '#' || c in note;
      case Modified(m) => assert c in t || c in "||^$" || c in m;
      case _ => assert c in t || c in "*.|^";
    }
  }

  predicate FieldString(s: string) {
    forall i :: 0 <= i < |s| ==> FieldChar(s[i])
  }

  lemma FieldCharIsPlain(env: Env, c: char)
    requires FieldChar(c)
    ensures !IsSpace(c) && (c as int) < 0x80 && c != '\0' && c != '\r' && Lower(env, c) == c
  {
  }

  lemma FieldStringIsOneField(env: Env, s: string)
    requires s != "" && FieldString(s)
    ensures Fields(s) == [s] && TrimSpace(s) == s
  {
    forall c | c in s ensures !IsSpace(c) {
      var i :| 0 <= i < |s| && s[i] == c;
      FieldCharIsPlain(env, s[i]);
    }
    OneField(s);
    TrimNothing(s);
  }

  lemma FieldStringIsLower(env: Env, s: string)
    requires FieldString(s)
    ensures ToLower(env, s) == s
  {
    forall i | 0 <= i < |s| ensures Lower(env, s[i]) == s[i] { FieldCharIsPlain(env, s[i]); }
  }

  lemma FieldStringIsReadable(env: Env, s: string)
    requires 0 < |s| < 2000 && FieldString(s)
    ensures Fits(s) && DropCR(s) == s && '\0' !in s
  {
    forall i | 0 <= i < |s| ensures (s[i] as int) < 0x80 && s[i] != '\0' && s[i] != '\r' { FieldCharIsPlain(env, s[i]); }
    ShortAscii(s);
    NoTrailing(s, '\r');
  }

  /** Such a text is one raw field, short, and lower case already. */
  lemma FieldText(env: Env, s: string)
    requires 0 < |s| < 2000 && FieldString(s)
    ensures Fields(s) == [s] && TrimSpace(s) == s && ToLower(env, s) == s
    ensures Fits(s) && DropCR(s) == s && '\0' !in s
  {
    FieldStringIsOneField(env, s);
    FieldStringIsLower(env, s);
    FieldStringIsReadable(env, s);
  }

  // what the parser makes of it

  lemma OneLabelRefused(env: Env, t: string, raw: string)
    requires BareSuffix(env, t) && Trimmed(raw) == t
    ensures Canonicalize(env, raw) == Err(Invalid)
  {
    assert forall c :: c in t ==> c != '.';
    SplitDotFree(t);
    LowerNothing(env, t);
  }

  lemma TrimmedLabel(t: string)
    requires ValidLabel(t)
    ensures Trimmed(t) == t && Trimmed(t + ".") == t
  {
    assert t[0] in t && t[|t| - 1] in t;
    TrimNothing(t);
    TrimNothing(t + ".");
    NoTrailing(t, '.');
  }

  lemma {:induction false} CutAtFound(x: string, c: char, y: string)
    requires c !in x
    ensures CutAt(x + [c] + y, c) == x
  {
    var z := x + [c] + y;
    if x == "" {
      assert z[0] == c;
    } else {
      assert z[0] == x[0] && z[1..] == x[1..] + [c] + y;
      CutAtFound(x[1..], c, y);
    }
  }

  /** The token a spelling without bars leaves after its comment is off. */
  function TokenOf(sp: Spelling, t: string): string {
    if sp.Commented? then t else Spelled(sp, t)
  }

  predicate Bars(sp: Spelling) {
    sp.Barred? || sp.Modified?
  }

  lemma TokenHasNoHash(sp: Spelling, t: string)
    requires ValidLabel(t) && !Bars(sp) && !sp.Commented?
    ensures '#' !in Spelled(sp, t)
  {
    forall c | c in Spelled(sp, t) ensures c != '#' { assert c in t || c in "*."; }
  }

  lemma TokenStripped(env: Env, sp: Spelling, t: string)
    requires ValidLabel(t) && GoodSpelling(sp) && !Bars(sp)
    ensures StripComment(Spelled(sp, t)) == TokenOf(sp, t) && Fields(TokenOf(sp, t)) == [TokenOf(sp, t)]
    ensures !HasPrefix(TokenOf(sp, t), "||") && TokenOf(sp, t) != ""
  {
    var s, tok := Spelled(sp, t), TokenOf(sp, t);
    assert t[0] in t;
    SpelledChars(sp, t);
    FieldText(env, s);
    SpelledChars(if sp.Commented? then Plain else sp, t);
    FieldText(env, tok);
    if sp.Commented? {
      assert s == t + ['#'] + sp.note;
      CutAtFound(t, '#', sp.note);
    } else {
      TokenHasNoHash(sp, t);
      CutNothing(tok, '#');
    }
  }

  lemma TokenNamed(sp: Spelling, t: string)
    requires ValidLabel(t) && !Bars(sp)
    ensures Trimmed(TokenName(TokenOf(sp, t))) == t && '*' !in TokenName(TokenOf(sp, t))
  {
    var name := TokenName(TokenOf(sp, t));
    assert t[0] in t;
    TrimmedLabel(t);
    assert name == if sp.FinalDot? then t + "." else t;
    forall c | c in name ensures c != '*' { assert c in t || c == '.'; }
  }

  lemma TokenRefused(env: Env, sp: Spelling, t: string)
    requires BareSuffix(env, t) && GoodSpelling(sp) && !Bars(sp)
    ensures ParseLine(env, Spelled(sp, t)) == Err(Invalid) && NamesIn(env, Spelled(sp, t)) == [t]
  {
    TokenStripped(env, sp, t);
    TokenNamed(sp, t);
    OneLabelRefused(env, t, TokenName(TokenOf(sp, t)));
    assert ParseToken(env, TokenOf(sp, t)) == Err(Invalid);
  }

  lemma BarsHaveNoHash(sp: Spelling, t: string)
    requires ValidLabel(t) && GoodSpelling(sp) && Bars(sp)
    ensures '#' !in Spelled(sp, t)
  {
    forall c | c in Spelled(sp, t) ensures c != '#' {
      if sp.Modified? {
        assert c in t || c in "||^$" || c in sp.modifier;
      } else {
        assert c in t || c in "|^";
      }
    }
  }

  lemma BarsStripped(env: Env, sp: Spelling, t: string)
    requires ValidLabel(t) && GoodSpelling(sp) && Bars(sp)
    ensures StripComment(Spelled(sp, t)) == Spelled(sp, t) && HasPrefix(Spelled(sp, t), "||")
  {
    var s := Spelled(sp, t);
    SpelledChars(sp, t);
    FieldText(env, s);
    BarsHaveNoHash(sp, t);
    CutNothing(s, '#');
  }

  lemma BarsNamed(sp: Spelling, t: string)
    requires ValidLabel(t) && GoodSpelling(sp) && Bars(sp)
    ensures AdblockName(Spelled(sp, t)[2..]) == t
  {
    var rest := t + "^";
    assert t[|t| - 1] in t;
    forall c | c in rest ensures c != '$' { assert c in t || c == '^'; }
    match sp
    case Barred =>
      assert Spelled(sp, t)[2..] == rest;
      CutNothing(rest, '$');
    case Modified(m) =>
      assert Spelled(sp, t)[2..] == rest + ['$'] + m;
      CutAtFound(rest, '$', m);
    NoTrailing(rest, '^');
    NoTrailing(t, '/');
    assert rest[..|t|] == t;
  }

  lemma BarsRefused(env: Env, sp: Spelling, t: string)
    requires BareSuffix(env, t) && GoodSpelling(sp) && Bars(sp)
    ensures ParseLine(env, Spelled(sp, t)) == Err(Invalid) && NamesIn(env, Spelled(sp, t)) == [t]
  {
    BarsStripped(env, sp, t);
    BarsNamed(sp, t);
    TrimmedLabel(t);
    OneLabelRefused(env, t, t);
    assert ParseAdblock(env, Spelled(sp, t)[2..]) == Err(Invalid);
  }

  // what the guard makes of it

  /** normalizeRaw after the trimming of spaces and the lower case. */
  function Peeled(s: string): string {
    TrimPrefix(TrimPrefix(TrimSuffix(TrimSuffix(TrimPrefix(s, "||"), "^"), "."), "*."), ".")
  }

  /** A text with host characters at both ends keeps what it has inside. */
  lemma PeeledKeeps(s: string)
    requires s != "" && HostRune(s[0]) && HostRune(s[|s| - 1])
    ensures Peeled(s) == s
  {
  }

  /** Without an end marker only the front is peeled. */
  lemma PeeledFront(s: string)
    requires s != "" && s[0] != '|' && HostRune(s[|s| - 1])
    ensures Peeled(s) == TrimPrefix(TrimPrefix(s, "*."), ".")
  {
    NoTrailing(s, '^');
    NoTrailing(s, '.');
  }

  lemma PeeledStar(t: string)
    requires t != "" && HostRune(t[0]) && HostRune(t[|t| - 1])
    ensures Peeled("*." + t) == t
  {
    PeeledFront("*." + t);
    assert ("*." + t)[2..] == t;
  }

  lemma PeeledDot(t: string)
    requires t != "" && HostRune(t[0]) && HostRune(t[|t| - 1])
    ensures Peeled("." + t) == t
  {
    PeeledFront("." + t);
    assert ("." + t)[1..] == t;
  }

  lemma PeeledMarkers(t: string)
    requires ValidLabel(t)
    ensures Peeled(t) == t && Peeled("*." + t) == t && Peeled("." + t) == t
  {
    assert t[0] in t && t[|t| - 1] in t;
    PeeledKeeps(t);
    PeeledStar(t);
    PeeledDot(t);
  }

  lemma PeeledBarred(t: string)
    requires ValidLabel(t)
    ensures Peeled("||" + t + "^") == t
  {
    assert t[0] in t && t[|t| - 1] in t;
    assert "||" + t + "^" == "||" + (t + "^");
    assert TrimPrefix("||" + (t + "^"), "||") == t + "^" && TrimSuffix(t + "^", "^") == t;
  }

  lemma PeeledFinalDot(t: string)
    requires ValidLabel(t)
    ensures Peeled(t + ".") == t
  {
    assert t[0] in t;
    assert TrimSuffix(t + ".", ".") == t;
  }

  lemma HiddenSuffix(t: string, inside: string, rest: string)
    requires ValidLabel(t) && Extra(rest) && inside != "" && inside[0] != '.' && !HostRune(inside[0])
    ensures Peeled(t + inside + rest) == t + inside + rest && !DottedHostText(t + inside + rest)
  {
    var s := t + inside + rest;
    assert t[0] in t && rest[|rest| - 1] in rest;
    PeeledKeeps(s);
    assert s[|t|] == inside[0] && s[|t|] in s;
  }

  lemma PeeledModified(t: string, m: string)
    requires ValidLabel(t) && Extra(m)
    ensures !DottedHostText(Peeled("||" + t + "^$" + m))
  {
    HiddenSuffix(t, "^$", m);
    assert t[0] in t && "||" + t + "^$" + m == "||" + (t + "^$" + m);
    PeelBars(t + "^$" + m);
  }

  lemma PeeledCommented(t: string, note: string)
    requires ValidLabel(t) && Extra(note)
    ensures !DottedHostText(Peeled(t + "#" + note))
  {
    HiddenSuffix(t, "#", note);
  }

  lemma PeeledSpelling(sp: Spelling, t: string)
    requires ValidLabel(t) && GoodSpelling(sp)
    ensures if sp.Commented? || sp.Modified? then !DottedHostText(Peeled(Spelled(sp, t))) else Peeled(Spelled(sp, t)) == t
  {
    match sp
    case Commented(note) => PeeledCommented(t, note);
    case Modified(m) => PeeledModified(t, m);
    case Barred => PeeledBarred(t);
    case FinalDot => PeeledFinalDot(t);
    case Plain => PeeledMarkers(t);
    case Starred => PeeledMarkers(t);
    case LeadingDot => PeeledMarkers(t);
  }

  lemma PeelBars(s: string)
    requires s != "" && s[0] != '|'
    ensures Peeled("||" + s) == Peeled(s)
  {
    assert TrimPrefix("||" + s, "||") == s && TrimPrefix(s, "||") == s;
  }

  lemma SpelledSuffix(env: Env, sp: Spelling, t: string)
    requires BareSuffix(env, t) && GoodSpelling(sp) && SuffixesAreNames(env)
    ensures RawIsSuffix(env, Spelled(sp, t)) <==> !(sp.Commented? || sp.Modified?)
  {
    SpelledChars(sp, t);
    FieldText(env, Spelled(sp, t));
    PeeledSpelling(sp, t);
    assert NormalizeRaw(env, Spelled(sp, t)) == Peeled(Spelled(sp, t));
  }

  /** Taking a marker off leaves a dot exactly in the spellings with a dot at one end. */
  lemma DotsLeft(sp: Spelling, t: string)
    requires ValidLabel(t) && !(sp.Commented? || sp.Modified?)
    ensures TrimPrefix(Spelled(sp, t), "*.") == (if sp.Starred? then t else Spelled(sp, t)) != ""
    ensures '.' in TrimPrefix(Spelled(sp, t), "*.") <==> sp.FinalDot? || sp.LeadingDot?
  {
    assert t[0] in t && forall c :: c in t ==> c != '.';
    match sp
    case FinalDot => assert (t + ".")[|t|] == '.';
    case LeadingDot => assert ("." + t)[0] == '.';
    case Barred =>
      forall c | c in "||" + t + "^" ensures c != '.' { assert c in t || c in "|^"; }
    case _ =>
  }

  lemma SpelledUnstarred(env: Env, sp: Spelling, t: string)
    requires ValidLabel(t) && GoodSpelling(sp) && !(sp.Commented? || sp.Modified?)
    ensures Unstarred(env, Spelled(sp, t)) != "" && ('.' in Unstarred(env, Spelled(sp, t)) <==> sp.FinalDot? || sp.LeadingDot?)
  {
    DotsLeft(sp, t);
    SpelledChars(sp, t);
    SpelledChars(Plain, t);
    FieldStringIsLower(env, Spelled(sp, t));
    FieldStringIsLower(env, t);
  }

  /** The seven spellings put forward the same bare suffix and are all refused, but only three
      of them stop the import: a dot at either end turns the line into a counted suffix, and a
      comment or a modifier without a space before it hides the suffix altogether. */
  lemma SpellingsDiffer(env: Env, sink: SinkBehaviour, p: Progress, sp: Spelling, t: string)
    requires p.halt.None? && BareSuffix(env, t) && SuffixesAreNames(env) && GoodSpelling(sp)
    ensures var line := Spelled(sp, t);
            NamesIn(env, line) == [t] && ReachesGuard(env, line) && Shows(p, AfterLine(env, sink, p, line), SpelledVerdict(sp))
  {
    var line := Spelled(sp, t);
    if Bars(sp) { BarsRefused(env, sp, t); } else { TokenRefused(env, sp, t); }
    SpelledGuarded(env, sp, t);
    SpelledJudged(env, sp, t);
    GuardExactly(env, sink, p, line, SpelledVerdict(sp));
  }

  /** One short field without NUL: the line gets to the guard. */
  lemma SpelledGuarded(env: Env, sp: Spelling, t: string)
    requires BareSuffix(env, t) && GoodSpelling(sp) && ParseLine(env, Spelled(sp, t)) == Err(Invalid)
    ensures ReachesGuard(env, Spelled(sp, t)) && DropCR(Spelled(sp, t)) == Spelled(sp, t)
  {
    SpelledChars(sp, t);
    FieldText(env, Spelled(sp, t));
  }

  lemma SpelledIsOneField(env: Env, sp: Spelling, t: string)
    requires BareSuffix(env, t) && GoodSpelling(sp)
    ensures Fields(Spelled(sp, t)) == [Spelled(sp, t)]
  {
    SpelledChars(sp, t);
    FieldText(env, Spelled(sp, t));
  }

  lemma OneFieldSuffix(env: Env, field: string)
    ensures FirstSuffix(env, [field]) == if RawIsSuffix(env, field) then Some(field) else None
  {
    assert [field][1..] == [] && FirstSuffix(env, []) == None;
  }

  lemma SpelledJudged(env: Env, sp: Spelling, t: string)
    requires BareSuffix(env, t) && SuffixesAreNames(env) && GoodSpelling(sp)
    ensures VerdictOn(env, Fields(Spelled(sp, t))) == SpelledVerdict(sp)
  {
    var line := Spelled(sp, t);
    SpelledIsOneField(env, sp, t);
    SpelledSuffix(env, sp, t);
    OneFieldSuffix(env, line);
    if !(sp.Commented? || sp.Modified?) { SpelledUnstarred(env, sp, t); }
  }
}
