/** internal/render: from a rule list to the text of a blocklist file. */
module Rendering {
  import opened Rules
  import opened Collapsing

  /** The rendered lines, without the header. The checksum covers only these bytes. */
  datatype Body = Body(bytes: string, entries: nat, checksum: Digest)

  datatype Header = Header(version: string, generatedAt: string, entries: string, checksum: string, attribution: seq<string>)

  /** One rule, one line. */
  function Line(r: Rule, f: Format): string {
    if f == FormatWildcard then "*." + r.domain else r.domain
  }

  function Terminated(lines: seq<string>): string {
    if lines == [] then "" else lines[0] + "\n" + Terminated(lines[1..])
  }

  function Lines(rules: seq<Rule>, f: Format): seq<string> {
    seq(|rules|, i requires 0 <= i < |rules| => Line(rules[i], f))
  }

  function Rendered(rules: seq<Rule>, f: Format): Option<Body> {
    if !ValidFormat(f) then None
    else
      var kept := Collapsed(rules, f);
      var text := Terminated(Lines(kept, f));
      Some(Body(text, |kept|, Sha256(text)))
  }

  lemma {:induction false} TerminatedAppend(lines: seq<string>, l: string)
    ensures Terminated(lines + [l]) == Terminated(lines) + l + "\n"
  {
    if lines == [] {
      assert ([] + [l])[1..] == [];
    } else {
      assert (lines + [l])[1..] == lines[1..] + [l];
      TerminatedAppend(lines[1..], l);
    }
  }

  /** Builds the body line by line. */
  method Render(rules: array<Rule>, f: Format) returns (body: Option<Body>)
    ensures body == Rendered(rules[..], f)
  {
    if !ValidFormat(f) { return None; }
    var out, n := Collapse(rules, f);
    var kept := out[..n];
    var text := WriteBody(kept, f);
    return Some(Body(text, n, Sha256(text)));
  }

  method WriteBody(kept: seq<Rule>, f: Format) returns (text: string)
    ensures text == Terminated(Lines(kept, f))
  {
    text := "";
    for i := 0 to |kept|
      invariant text == Terminated(Lines(kept, f)[..i])
    {
      TakeOneMore(Lines(kept, f), i);
      TerminatedAppend(Lines(kept, f)[..i], Line(kept[i], f));
      text := text + Line(kept[i], f) + "\n";
    }
    TakeAll(Lines(kept, f));
  }

  lemma TakeOneMore<T>(s: seq<T>, i: nat)
    requires i < |s|
    ensures s[..i + 1] == s[..i] + [s[i]]
  {
  }

  lemma TakeAll<T>(s: seq<T>)
    ensures s[..|s|] == s
  {
  }

  // ----- the header -----

  datatype Field = Field(key: string, value: string)

  function HeaderFields(h: Header): seq<Field> {
    [Field("Version", h.version), Field("Generated", h.generatedAt), Field("Entries", h.entries), Field("Checksum", h.checksum)]
  }

  function FieldLine(f: Field): string {
    "# " + f.key + ": " + f.value
  }

  /** A line for each field that has a value. */
  function FieldLines(fields: seq<Field>): seq<string> {
    if fields == [] then []
    else
      var n := |fields| - 1;
      FieldLines(fields[..n]) + if fields[n].value == "" then [] else [FieldLine(fields[n])]
  }

  function SourceLine(source: string): string {
    "# Source: " + source
  }

  function SourceLines(attribution: seq<string>): seq<string> {
    seq(|attribution|, i requires 0 <= i < |attribution| => SourceLine(attribution[i]))
  }

  function HeaderLines(h: Header): seq<string> {
    FieldLines(HeaderFields(h)) + SourceLines(h.attribution) + ["#"]
  }

  /** The whole file: header lines, then the body. */
  function FileText(h: Header, b: Body): string {
    Terminated(HeaderLines(h)) + b.bytes
  }

  lemma {:induction false} TerminatedConcat(a: seq<string>, b: seq<string>)
    ensures Terminated(a + b) == Terminated(a) + Terminated(b)
  {
    if a == [] {
      assert [] + b == b;
    } else {
      assert (a + b)[1..] == a[1..] + b;
      TerminatedConcat(a[1..], b);
    }
  }

  lemma FieldLinesStep(fields: seq<Field>, f: Field)
    ensures f.value == "" ==> FieldLines(fields + [f]) == FieldLines(fields)
    ensures f.value != "" ==> FieldLines(fields + [f]) == FieldLines(fields) + [FieldLine(f)]
  {
    assert (fields + [f])[..|fields|] == fields;
    assert FieldLines(fields) + [] == FieldLines(fields);
  }

  method WriteFields(fields: seq<Field>) returns (text: string)
    ensures text == Terminated(FieldLines(fields))
  {
    text := "";
    for i := 0 to |fields|
      invariant text == Terminated(FieldLines(fields[..i]))
    {
      TakeOneMore(fields, i);
      FieldLinesStep(fields[..i], fields[i]);
      if fields[i].value == "" { continue; }
      TerminatedAppend(FieldLines(fields[..i]), FieldLine(fields[i]));
      text := text + FieldLine(fields[i]) + "\n";
    }
    TakeAll(fields);
  }

  method WriteSources(attribution: seq<string>) returns (text: string)
    ensures text == Terminated(SourceLines(attribution))
  {
    text := "";
    for i := 0 to |attribution|
      invariant text == Terminated(SourceLines(attribution)[..i])
    {
      TakeOneMore(SourceLines(attribution), i);
      TerminatedAppend(SourceLines(attribution)[..i], SourceLine(attribution[i]));
      text := text + SourceLine(attribution[i]) + "\n";
    }
    TakeAll(SourceLines(attribution));
  }

  method WriteTo(h: Header, b: Body) returns (text: string)
    ensures text == FileText(h, b)
  {
    var fields := WriteFields(HeaderFields(h));
    var sources := WriteSources(h.attribution);
    TerminatedConcat(FieldLines(HeaderFields(h)), SourceLines(h.attribution));
    TerminatedAppend(FieldLines(HeaderFields(h)) + SourceLines(h.attribution), "#");
    text := fields + sources + "#" + "\n" + b.bytes;
  }
}
