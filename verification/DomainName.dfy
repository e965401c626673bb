/** internal/domainname: from one raw feed line to canonical rules. The IDNA tables, the IP
    address parser and the lower-casing of non-ASCII characters are parameters. */
module DomainNames {
  import opened Names
  import opened Rules

  /** The library calls the package relies on, as total functions. */
  datatype Env = Env(
    toASCII: string -> Option<string>,
    parsesAsIP: string -> bool,
    lowerWide: char -> char,
    icannSuffix: string -> bool
  )

  datatype ParseError = Skip | IP | Invalid

  const MAX_NAME_LEN := 253
  const MAX_LABEL_LEN := 63

  // ----- package strings -----

  /** Everything before the first c. */
  function CutAt(s: string, c: char): string {
    if s == [] || s[0] == c then [] else [s[0]] + CutAt(s[1..], c)
  }

  /** The characters up to the first space. */
  function FirstField(s: string): (r: string)
    ensures r <= s
  {
    if s == [] || IsSpace(s[0]) then [] else [s[0]] + FirstField(s[1..])
  }

  /** strings.Fields. */
  function Fields(s: string): seq<string>
    decreases |s|
  {
    if s == [] then []
    else if IsSpace(s[0]) then Fields(s[1..])
    else
      var f := FirstField(s);
      [f] + Fields(s[|f|..])
  }

  function Lower(env: Env, c: char): char {
    if 'A' <= c <= 'Z' then (c as int + 32) as char
    else if c as int < 0x80 then c
    else env.lowerWide(c)
  }

  function ToLower(env: Env, s: string): string {
    seq(|s|, i requires 0 <= i < |s| => Lower(env, s[i]))
  }

  // ----- Canonicalize -----

  predicate HostRune(c: char) {
    'a' <= c <= 'z' || '0' <= c <= '9' || c == '-' || c == '_'
  }

  predicate HostText(l: string) {
    forall c :: c in l ==> HostRune(c)
  }

  predicate ValidLabel(l: string) {
    l != "" && |l| <= MAX_LABEL_LEN && HostText(l)
  }

  predicate ValidName(name: string) {
    |name| <= MAX_NAME_LEN && |Split(name)| >= 2 && forall l :: l in Split(name) ==> ValidLabel(l)
  }

  predicate IsIP(env: Env, s: string) {
    env.parsesAsIP(TrimPrefix(TrimSuffix(s, "]"), "["))
  }

  function Canonicalize(env: Env, raw: string): Result<string, ParseError> {
    var s := TrimSuffix(TrimSpace(raw), ".");
    if s == "" then Err(Invalid)
    else if IsIP(env, s) then Err(IP)
    else
      match env.toASCII(s)
      case None => Err(Invalid)
      case Some(a) =>
        var ascii := ToLower(env, a);
        if ValidName(ascii) then Ok(ascii) else Err(Invalid)
  }

  /** The label and character loops decide ValidName. */
  method Validate(name: string) returns (ok: bool)
    ensures ok <==> ValidName(name)
  {
    if |name| > MAX_NAME_LEN { return false; }
    var labels := Split(name);
    if |labels| < 2 { return false; }
    for i := 0 to |labels|
      invariant forall k :: 0 <= k < i ==> ValidLabel(labels[k])
    {
      var l := labels[i];
      if l == "" || |l| > MAX_LABEL_LEN {
        assert !ValidLabel(l);
        return false;
      }
      for j := 0 to |l|
        invariant forall k :: 0 <= k < j ==> HostRune(l[k])
      {
        if !HostRune(l[j]) {
          assert !ValidLabel(l);
          return false;
        }
      }
    }
    return true;
  }

  // ----- lines -----

  function StripComment(raw: string): string {
    var line := TrimSpace(raw);
    if HasPrefix(line, "!") || HasPrefix(line, ";") then ""
    else TrimSpace(CutAt(line, '#'))
  }

  /** A token without its wildcard marker. */
  function TokenName(tok: string): string {
    if HasPrefix(tok, "*.") then tok[2..] else if HasPrefix(tok, ".") then tok[1..] else tok
  }

  function ParseToken(env: Env, tok: string): Result<Rule, ParseError> {
    var mt := if HasPrefix(tok, "*.") || HasPrefix(tok, ".") then Wildcard else Exact;
    var rest := TokenName(tok);
    if '*' in rest then Err(Invalid)
    else
      match Canonicalize(env, rest)
      case Err(e) => Err(e)
      case Ok(d) => Ok(Rule(d, mt))
  }

  /** An Adblock rule without its modifiers and its end marker. */
  function AdblockName(rest: string): string {
    TrimSuffix(TrimSuffix(CutAt(rest, '$'), "^"), "/")
  }

  function ParseAdblock(env: Env, rest: string): Result<seq<Rule>, ParseError> {
    var r := AdblockName(rest);
    if exists c :: c in r && c in "/*?=" then Err(Invalid)
    else
      match Canonicalize(env, r)
      case Err(e) => Err(e)
      case Ok(d) => Ok([Rule(d, Wildcard)])
  }

  /** What the tokens of a hosts line mean: all of them, or the error of the first bad one. */
  function TokenRules(env: Env, tokens: seq<string>): Result<seq<Rule>, ParseError> {
    if tokens == [] then Ok([])
    else
      var n := |tokens| - 1;
      match TokenRules(env, tokens[..n])
      case Err(e) => Err(e)
      case Ok(rules) =>
        match ParseToken(env, tokens[n])
        case Err(e) => Err(e)
        case Ok(r) => Ok(rules + [r])
  }

  function HostsRules(env: Env, tokens: seq<string>): Result<seq<Rule>, ParseError> {
    if tokens == [] then Err(Skip) else TokenRules(env, tokens)
  }

  function ParseLine(env: Env, raw: string): Result<seq<Rule>, ParseError> {
    var line := StripComment(raw);
    if line == "" then Err(Skip)
    else if HasPrefix(line, "||") then ParseAdblock(env, line[2..])
    else
      var fields := Fields(line);
      if |fields| == 0 then Err(Skip)
      else if |fields| == 1 then
        match ParseToken(env, fields[0])
        case Err(e) => Err(e)
        case Ok(r) => Ok([r])
      else if IsIP(env, fields[0]) then HostsRules(env, fields[1..])
      else Err(Invalid)
  }

  lemma {:induction false} TokenErrorSticks(env: Env, tokens: seq<string>, n: nat)
    requires n <= |tokens| && TokenRules(env, tokens[..n]).Err?
    ensures TokenRules(env, tokens) == TokenRules(env, tokens[..n])
    decreases |tokens|
  {
    if n == |tokens| {
      assert tokens[..n] == tokens;
    } else {
      assert tokens[..|tokens| - 1][..n] == tokens[..n];
      TokenErrorSticks(env, tokens[..|tokens| - 1], n);
    }
  }

  lemma {:induction false} TokenRulesCount(env: Env, tokens: seq<string>)
    ensures TokenRules(env, tokens).Ok? ==> |TokenRules(env, tokens).value| == |tokens|
  {
    if tokens != [] { TokenRulesCount(env, tokens[..|tokens| - 1]); }
  }

  /** A hosts line is one statement: the loop stops at the first bad hostname and the rules
      gathered before it are thrown away. */
  method ParseTokens(env: Env, tokens: seq<string>) returns (res: Result<seq<Rule>, ParseError>)
    ensures res == HostsRules(env, tokens)
  {
    var rules := [];
    for i := 0 to |tokens|
      invariant TokenRules(env, tokens[..i]) == Ok(rules)
    {
      assert tokens[..i + 1][..i] == tokens[..i];
      var r := ParseToken(env, tokens[i]);
      if r.Err? {
        TokenErrorSticks(env, tokens, i + 1);
        return Err(r.error);
      }
      rules := rules + [r.value];
    }
    assert tokens[..|tokens|] == tokens;
    TokenRulesCount(env, tokens);
    if |rules| == 0 { return Err(Skip); }
    return Ok(rules);
  }

  // ----- what a parsed rule looks like -----

  predicate DottedHostText(s: string) {
    forall c :: c in s ==> c == '.' || HostRune(c)
  }

  lemma HostTextTail(c: char, l: string)
    requires HostText([c] + l)
    ensures HostRune(c) && HostText(l)
  {
    assert c in [c] + l;
    assert forall x :: x in l ==> x in [c] + l;
  }

  lemma DottedCons(s: string)
    requires s != "" && (s[0] == '.' || HostRune(s[0])) && DottedHostText(s[1..])
    ensures DottedHostText(s)
  {
  }

  lemma {:induction false} SplitCharacters(s: string)
    requires forall l :: l in Split(s) ==> HostText(l)
    ensures DottedHostText(s)
  {
    if s != [] {
      var t, p := Split(s[1..]), Split(s);
      if s[0] == '.' {
        assert p[1..] == t;
        assert forall l :: l in t ==> l in p;
      } else {
        assert p[0] in p;
        HostTextTail(s[0], t[0]);
        assert p[1..] == t[1..];
        assert forall l :: l in t ==> l == t[0] || l in p;
      }
      SplitCharacters(s[1..]);
      DottedCons(s);
    }
  }

  lemma {:induction false} SplitLast(s: string)
    requires s != "" && s[|s| - 1] == '.'
    ensures Split(s)[|Split(s)| - 1] == ""
  {
    if |s| == 1 {
      assert s[1..] == [] && Split(s) == [[]] + [[]];
    } else {
      SplitLast(s[1..]);
    }
  }

  lemma SplitEnds(s: string)
    requires s != ""
    ensures s[|s| - 1] == '.' ==> Split(s)[|Split(s)| - 1] == ""
    ensures s[0] == '.' ==> Split(s)[0] == ""
  {
    if s[|s| - 1] == '.' { SplitLast(s); }
  }

  /** Nothing that feed syntax could read as something else survives in a valid name. */
  lemma ValidNameShape(d: string)
    requires ValidName(d)
    ensures d != "" && d[0] != '.' && d[|d| - 1] != '.'
    ensures DottedHostText(d)
    ensures forall c :: c in d ==> !IsSpace(c) && c !in "*#!;|[]$^/?=\n\r\0" && (c as int) < 0x80
  {
    var labels := Split(d);
    assert labels[0] in labels && labels[|labels| - 1] in labels;
    SplitCharacters(d);
    SplitEnds(d);
  }

  lemma {:induction false} TokenRulesValid(env: Env, tokens: seq<string>)
    requires TokenRules(env, tokens).Ok?
    ensures forall r :: r in TokenRules(env, tokens).value ==> ValidName(r.domain)
  {
    if tokens != [] { TokenRulesValid(env, tokens[..|tokens| - 1]); }
  }

  /** Whatever the feed wrote, an accepted line yields at least one rule, and every name in
      it is a valid host name without the wildcard marker. */
  lemma ParsedNamesAreValid(env: Env, raw: string)
    requires ParseLine(env, raw).Ok?
    ensures ParseLine(env, raw).value != []
    ensures forall r :: r in ParseLine(env, raw).value ==> ValidName(r.domain) && '*' !in r.domain
  {
    var line := StripComment(raw);
    var fields := Fields(line);
    if !HasPrefix(line, "||") && |fields| > 1 {
      TokenRulesValid(env, fields[1..]);
      TokenRulesCount(env, fields[1..]);
    }
    forall r | r in ParseLine(env, raw).value ensures ValidName(r.domain) && '*' !in r.domain {
      ValidNameShape(r.domain);
    }
  }

  // ----- canonical names -----

  /** IDNA conversion leaves its own (lower-cased) output alone. */
  ghost predicate IdnaIdempotent(env: Env) {
    forall s :: env.toASCII(s).Some? ==>
      var a := ToLower(env, env.toASCII(s).value);
      env.toASCII(a) == Some(a)
  }

  /** A name that Canonicalize gives back as it is. */
  predicate Canonical(env: Env, d: string) {
    Canonicalize(env, d) == Ok(d)
  }

  lemma LowerNothing(env: Env, d: string)
    requires DottedHostText(d)
    ensures ToLower(env, d) == d
  {
    forall i | 0 <= i < |d| ensures Lower(env, d[i]) == d[i] { assert d[i] in d; }
  }

  /** The name that is looked at: without the spaces around it and its final dot. */
  function Trimmed(raw: string): string {
    TrimSuffix(TrimSpace(raw), ".")
  }

  /** Its lower-cased IDNA form, which the address test never sees. */
  function Mapped(env: Env, raw: string): Option<string> {
    match env.toASCII(Trimmed(raw))
    case None => None
    case Some(a) => Some(ToLower(env, a))
  }

  /** The result of a name that is accepted is its mapped form, and canonicalizing again gives
      it back exactly when the mapped form of the input does not read as an address. */
  lemma CanonicalizeIdempotentIff(env: Env, raw: string)
    requires IdnaIdempotent(env) && Canonicalize(env, raw).Ok?
    ensures Mapped(env, raw).Some? && Canonicalize(env, raw) == Ok(Mapped(env, raw).value)
    ensures Canonicalize(env, Mapped(env, raw).value) == if IsIP(env, Mapped(env, raw).value) then Err(IP) else Ok(Mapped(env, raw).value)
  {
    var d := Mapped(env, raw).value;
    ValidNameShape(d);
    TrimNothing(d);
    assert !HasSuffix(d, ".");
    LowerNothing(env, d);
  }

  /** Reading an address does not depend on the case of its letters. */
  ghost predicate AddressCaseBlind(env: Env) {
    forall s :: env.parsesAsIP(ToLower(env, s)) ==> env.parsesAsIP(s)
  }

  lemma NoBrackets(s: string)
    requires s != "" && s[0] != '[' && s[|s| - 1] != ']'
    ensures TrimPrefix(TrimSuffix(s, "]"), "[") == s
  {
  }

  /** Lower-casing makes no address out of a name that had no brackets. */
  lemma LoweredAddress(env: Env, s: string, d: string)
    requires AddressCaseBlind(env) && d == ToLower(env, s) && d != "" && d[0] != '[' && d[|d| - 1] != ']'
    ensures IsIP(env, d) ==> IsIP(env, s)
  {
    NoBrackets(d);
    assert Lower(env, s[0]) == d[0] && Lower(env, s[|s| - 1]) == d[|d| - 1];
    NoBrackets(s);
  }

  lemma AcceptedShape(env: Env, raw: string)
    requires Canonicalize(env, raw).Ok?
    ensures !IsIP(env, Trimmed(raw)) && Mapped(env, raw).Some?
    ensures var d := Mapped(env, raw).value; d != "" && d[0] != '[' && d[|d| - 1] != ']'
  {
    var d := Mapped(env, raw).value;
    ValidNameShape(d);
    assert d[0] in d && d[|d| - 1] in d;
  }

  /** So names on which IDNA does no more than lower-casing are always accepted a second time. */
  lemma LoweredNamesAreStable(env: Env, raw: string)
    requires IdnaIdempotent(env) && AddressCaseBlind(env) && Canonicalize(env, raw).Ok?
    requires Mapped(env, raw) == Some(ToLower(env, Trimmed(raw)))
    ensures Canonical(env, Canonicalize(env, raw).value)
  {
    CanonicalizeIdempotentIff(env, raw);
    AcceptedShape(env, raw);
    LoweredAddress(env, Trimmed(raw), Mapped(env, raw).value);
  }

  lemma AcceptsMapped(env: Env, s: string, d: string)
    requires s != "" && TrimSpace(s) == s && !HasSuffix(s, ".") && !IsIP(env, s)
    requires env.toASCII(s) == Some(d) && ToLower(env, d) == d && ValidName(d)
    ensures Canonicalize(env, s) == Ok(d)
  {
  }

  lemma RefusesAddress(env: Env, s: string)
    requires s != "" && TrimSpace(s) == s && !HasSuffix(s, ".") && IsIP(env, s)
    ensures Canonicalize(env, s) == Err(IP)
  {
  }

  const WIDE_ADDRESS := "\U{FF11}.1.1.1"
  const PLAIN_ADDRESS := "1.1.1.1"

  lemma WideAddressShape(env: Env)
    ensures TrimSpace(WIDE_ADDRESS) == WIDE_ADDRESS && !HasSuffix(WIDE_ADDRESS, ".")
    ensures IsIP(env, WIDE_ADDRESS) == env.parsesAsIP(WIDE_ADDRESS)
  {
    TrimNothing(WIDE_ADDRESS);
    NoBrackets(WIDE_ADDRESS);
  }

  lemma PlainAddressShape(env: Env)
    ensures TrimSpace(PLAIN_ADDRESS) == PLAIN_ADDRESS && !HasSuffix(PLAIN_ADDRESS, ".")
    ensures IsIP(env, PLAIN_ADDRESS) == env.parsesAsIP(PLAIN_ADDRESS)
    ensures ToLower(env, PLAIN_ADDRESS) == PLAIN_ADDRESS
  {
    TrimNothing(PLAIN_ADDRESS);
    NoBrackets(PLAIN_ADDRESS);
  }

  lemma PlainAddressIsValidName()
    ensures ValidName(PLAIN_ADDRESS)
  {
    SplitAddress();
    assert ValidLabel("1");
  }

  /** The address test runs before IDNA mapping, so digits that IDNA maps to ASCII digits get
      past it: the result is stored as a host name, and its own line is then rejected. */
  lemma MappedDigitsSlipThrough(env: Env)
    requires env.toASCII(WIDE_ADDRESS) == Some(PLAIN_ADDRESS) && env.parsesAsIP(PLAIN_ADDRESS) && !env.parsesAsIP(WIDE_ADDRESS)
    ensures Canonicalize(env, WIDE_ADDRESS) == Ok(PLAIN_ADDRESS)
    ensures Canonicalize(env, PLAIN_ADDRESS) == Err(IP)
  {
    WideAddressShape(env);
    PlainAddressShape(env);
    PlainAddressIsValidName();
    AcceptsMapped(env, WIDE_ADDRESS, PLAIN_ADDRESS);
    RefusesAddress(env, PLAIN_ADDRESS);
  }

  lemma SplitAddress()
    ensures Split(PLAIN_ADDRESS) == ["1", "1", "1", "1"]
  {
    SplitDotFree("1");
    SplitAtDot("1", "1");
    SplitAtDot("1", "1.1");
    SplitAtDot("1", "1.1.1");
    assert "1" + "." + "1" == "1.1";
    assert "1" + "." + "1.1" == "1.1.1";
    assert "1" + "." + "1.1.1" == "1.1.1.1";
  }

  // ----- reading back a printed name -----

  lemma {:induction false} CutNothing(s: string, c: char)
    requires c !in s
    ensures CutAt(s, c) == s
  {
    if s != [] {
      CutNothing(s[1..], c);
      assert s == [s[0]] + s[1..];
    }
  }

  lemma {:induction false} OneField(s: string)
    requires forall c :: c in s ==> !IsSpace(c)
    ensures FirstField(s) == s
    ensures s != "" ==> Fields(s) == [s]
  {
    if s != "" {
      OneField(s[1..]);
      assert s == [s[0]] + s[1..];
      assert s[|s|..] == "";
    }
  }

  predicate PlainText(s: string) {
    s != "" && s[0] !in "!;|" && forall c :: c in s ==> !IsSpace(c) && c != '#'
  }

  lemma PlainTextStripped(s: string)
    requires PlainText(s)
    ensures StripComment(s) == s
  {
    TrimNothing(s);
    CutNothing(s, '#');
  }

  /** A line that is one plain token means what the token means. */
  lemma PlainTextParses(env: Env, s: string, r: Rule)
    requires PlainText(s) && ParseToken(env, s) == Ok(r)
    ensures ParseLine(env, s) == Ok([r])
  {
    PlainTextStripped(s);
    OneField(s);
  }

  lemma PlainToken(env: Env, d: string)
    requires Canonical(env, d) && '*' !in d && d != "" && d[0] != '.'
    ensures ParseToken(env, d) == Ok(Rule(d, Exact))
  {
    assert d[0] in d;
  }

  lemma StarredToken(env: Env, d: string)
    requires Canonical(env, d) && '*' !in d
    ensures ParseToken(env, "*." + d) == Ok(Rule(d, Wildcard))
  {
    assert ("*." + d)[2..] == d;
  }

  lemma StarredText(d: string)
    requires forall c :: c in d ==> !IsSpace(c) && c != '#'
    ensures PlainText("*." + d)
  {
    var s := "*." + d;
    forall c | c in s ensures !IsSpace(c) && c != '#' {
      assert c == '*' || c == '.' || c in d;
    }
  }

  /** What a canonical name looks like to the parser. */
  lemma CanonicalText(env: Env, d: string)
    requires Canonical(env, d)
    ensures PlainText(d) && '*' !in d && d[0] != '.'
  {
    ValidNameShape(d);
  }

  /** A canonical name on a line of its own is an exact rule for that name. */
  lemma PlainNameParses(env: Env, d: string)
    requires Canonical(env, d)
    ensures ParseLine(env, d) == Ok([Rule(d, Exact)])
  {
    CanonicalText(env, d);
    PlainToken(env, d);
    PlainTextParses(env, d, Rule(d, Exact));
  }

  /** With the marker in front it is a wildcard rule for the same name. */
  lemma StarredNameParses(env: Env, d: string)
    requires Canonical(env, d)
    ensures ParseLine(env, "*." + d) == Ok([Rule(d, Wildcard)])
  {
    CanonicalText(env, d);
    StarredText(d);
    StarredToken(env, d);
    PlainTextParses(env, "*." + d, Rule(d, Wildcard));
  }

  /** A line that starts with '#' carries no rule. */
  lemma CommentParses(env: Env, rest: string)
    ensures ParseLine(env, "#" + rest) == Err(Skip)
  {
    TrimKeepsHash(rest);
  }

  lemma TrimKeepsHash(rest: string)
    ensures StripComment("#" + rest) == ""
  {
    var s := "#" + rest;
    TrimRightKeepsHead(s);
    assert TrimSpace("") == "";
  }

  lemma {:induction false} TrimRightKeepsHead(s: string)
    requires s != "" && !IsSpace(s[0])
    ensures TrimRight(s) != "" && TrimRight(s)[0] == s[0]
  {
    if IsSpace(s[|s| - 1]) { TrimRightKeepsHead(s[..|s| - 1]); }
  }
}
