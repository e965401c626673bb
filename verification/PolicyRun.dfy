/** internal/store/policyrun.go: evaluating every (domain, category) pair. */
module PolicyRun {
  import opened Rules
  import opened Policy
  import opened GroupBy
  import Matching

  /** The name lists, already loaded into matchers: exact names and wildcard names. */
  datatype NameList = NameList(exact: set<string>, wildcard: set<string>) {
    ghost predicate Covers(name: string) {
      Matching.Matches(exact, wildcard, name)
    }
  }

  datatype Lists = Lists(protectedAllow: NameList, globalAllow: NameList, globalBlock: NameList)

  class Matchers {
    const protectedAllow: Matching.Matcher
    const globalAllow: Matching.Matcher
    const globalBlock: Matching.Matcher

    constructor (p: Matching.Matcher, a: Matching.Matcher, b: Matching.Matcher)
      ensures protectedAllow == p && globalAllow == a && globalBlock == b
    {
      protectedAllow, globalAllow, globalBlock := p, a, b;
    }

    ghost predicate Valid()
      reads protectedAllow, globalAllow, globalBlock
    {
      protectedAllow.Valid() && globalAllow.Valid() && globalBlock.Valid()
    }

    ghost function Value(): Lists
      reads protectedAllow, globalAllow, globalBlock
    {
      Lists(NameList(protectedAllow.exact, protectedAllow.wildcard),
            NameList(globalAllow.exact, globalAllow.wildcard),
            NameList(globalBlock.exact, globalBlock.wildcard))
    }
  }

  ghost function FlagsFor(domain: string, lists: Lists): ListFlags {
    ListFlags(lists.protectedAllow.Covers(domain), false, false, lists.globalAllow.Covers(domain), lists.globalBlock.Covers(domain))
  }

  datatype Context = Context(cfg: Config, lists: Lists, now: int)

  /** The decision for one (domain, category) pair from its evidence. */
  ghost function DecisionFor(o: Open, evidence: seq<Evidence>, c: Context): Pending {
    var d := Decided(evidence, o.category, FlagsFor(o.domain, c.lists), c.now, c.cfg);
    Pending(o.domainId, o.categoryId, d.action, Int16(d.score), Int16(d.independent), d.reason, d.matched)
  }

  method EvaluateOne(o: Open, evidence: seq<Evidence>, cfg: Config, m: Matchers, now: int) returns (p: Pending)
    requires m.Valid()
    ensures p == DecisionFor(o, evidence, Context(cfg, m.Value(), now))
  {
    var inProtected := m.protectedAllow.Match(o.domain);
    var inAllow := m.globalAllow.Match(o.domain);
    var inBlock := m.globalBlock.Match(o.domain);
    var d := Evaluate(evidence, o.category, ListFlags(inProtected, false, false, inAllow, inBlock), now, cfg);
    p := Pending(o.domainId, o.categoryId, d.action, Int16(d.score), Int16(d.independent), d.reason, d.matched);
  }

  ghost function DeciderFor(c: Context): Decider {
    (o: Open, e: seq<Evidence>) => DecisionFor(o, e, c)
  }

  lemma DeciderKeepsKey(c: Context)
    ensures KeepsKey(DeciderFor(c))
  {
  }

  lemma DeciderOrderBlind(c: Context)
    ensures OrderBlind(DeciderFor(c))
  {
    forall o: Open, e1, e2 | SameElements(e1, e2) ensures DecisionFor(o, e1, c) == DecisionFor(o, e2, c) {
      DecisionDependsOnEvidenceSet(e1, e2, o.category, FlagsFor(o.domain, c.lists), c.now, c.cfg);
    }
  }

  /** A Go slice that is refilled after `evidence[:0]`: resetting keeps the backing array. */
  class EvidenceBuffer {
    var data: array<Evidence>
    var len: nat

    ghost predicate Valid()
      reads this
    {
      len <= data.Length
    }

    ghost function Contents(): seq<Evidence>
      requires Valid()
      reads this, data
    {
      data[..len]
    }

    constructor ()
      ensures Valid() && fresh(data) && Contents() == []
    {
      data, len := new Evidence[0], 0;
    }

    method Append(e: Evidence)
      requires Valid()
      modifies this, data
      ensures Valid() && (data == old(data) || fresh(data))
      ensures Contents() == old(Contents()) + [e]
    {
      if len == data.Length {
        var bigger := new Evidence[2 * len + 1];
        forall i | 0 <= i < len {
          bigger[i] := data[i];
        }
        data := bigger;
        assert data[..len] == old(data[..len]);
      }
      data[len] := e;
      len := len + 1;
    }

    method Reset()
      requires Valid()
      modifies this`len
      ensures Valid() && Contents() == []
    {
      len := 0;
    }
  }

  function CountBlocked(pending: seq<Pending>): nat {
    if pending == [] then 0
    else CountBlocked(pending[..|pending| - 1]) + if pending[|pending| - 1].action == Block then 1 else 0
  }

  /** EvaluateAll's loop: flush when the pair changes, reuse the buffer, flush at the end. */
  method EvaluateRows(rows: seq<Row>, cfg: Config, m: Matchers, now: int)
    returns (pending: seq<Pending>, evaluated: nat, blocked: nat)
    requires SortedRows(rows) && JoinedRows(rows) && m.Valid()
    ensures GroupedBy(pending, rows, DeciderFor(Context(cfg, m.Value(), now)))
    ensures evaluated == |pending| && blocked == CountBlocked(pending)
  {
    ghost var d := DeciderFor(Context(cfg, m.Value(), now));
    DeciderKeepsKey(Context(cfg, m.Value(), now));
    pending, evaluated, blocked := [], 0, 0;
    var cur := NONE_OPEN;
    var evidence := new EvidenceBuffer();
    for i := 0 to |rows|
      invariant evidence.Valid() && fresh(evidence) && fresh(evidence.data)
      invariant evaluated == |pending| && blocked == CountBlocked(pending)
      invariant Scan(pending, cur, evidence.Contents()) == ScanOf(rows[..i], d)
      invariant cur.domainId < 0 ==> evidence.Contents() == []
    {
      var r := rows[i];
      assert r in rows;
      ScanOfStep(rows, i, d);
      cur, pending, evaluated, blocked := TakeRow(d, r, cur, evidence, pending, evaluated, blocked, cfg, m, now);
    }
    assert rows[..|rows|] == rows;
    pending, evaluated, blocked := Flush(d, cur, evidence, pending, evaluated, blocked, cfg, m, now);
    StreamingGroupsCorrectly(rows, d);
  }

  /** The loop's body. */
  method TakeRow(ghost d: Decider, r: Row, cur: Open, evidence: EvidenceBuffer, pending: seq<Pending>, evaluated: nat, blocked: nat,
                 cfg: Config, m: Matchers, now: int)
    returns (cur': Open, pending': seq<Pending>, evaluated': nat, blocked': nat)
    requires m.Valid() && evidence.Valid() && d == DeciderFor(Context(cfg, m.Value(), now)) && r.domainId >= 0
    requires evaluated == |pending| && blocked == CountBlocked(pending)
    requires cur.domainId < 0 ==> evidence.Contents() == []
    modifies evidence, evidence.data
    ensures evidence.Valid() && (evidence.data == old(evidence.data) || fresh(evidence.data)) && cur'.domainId >= 0
    ensures Scan(pending', cur', evidence.Contents()) == ScanStep(Scan(pending, cur, old(evidence.Contents())), r, d)
    ensures evaluated' == |pending'| && blocked' == CountBlocked(pending')
  {
    cur', pending', evaluated', blocked' := cur, pending, evaluated, blocked;
    if r.domainId != cur.domainId || r.categoryId != cur.categoryId {
      pending', evaluated', blocked' := Flush(d, cur, evidence, pending, evaluated, blocked, cfg, m, now);
      cur' := OpenedBy(r);
    }
    evidence.Append(ToEvidence(r));
  }

  method Flush(ghost d: Decider, cur: Open, evidence: EvidenceBuffer, pending: seq<Pending>, evaluated: nat, blocked: nat,
               cfg: Config, m: Matchers, now: int)
    returns (pending': seq<Pending>, evaluated': nat, blocked': nat)
    requires m.Valid() && evidence.Valid() && d == DeciderFor(Context(cfg, m.Value(), now))
    requires evaluated == |pending| && blocked == CountBlocked(pending)
    requires cur.domainId < 0 ==> evidence.Contents() == []
    modifies evidence`len
    ensures evidence.Valid() && evidence.Contents() == []
    ensures pending' == Flushed(Scan(pending, cur, old(evidence.Contents())), d)
    ensures evaluated' == |pending'| && blocked' == CountBlocked(pending')
  {
    pending', evaluated', blocked' := pending, evaluated, blocked;
    if cur.domainId < 0 { return; }
    var p := EvaluateOne(cur, evidence.data[..evidence.len], cfg, m, now);
    evaluated' := evaluated + 1;
    if p.action == Block { blocked' := blocked + 1; }
    pending' := pending + [p];
    assert pending'[..|pending'| - 1] == pending;
    evidence.Reset();
  }

  /** A policy run is a function of the set of evidence rows: any order inside each group,
      and any repetition, gives the same decisions. */
  lemma RunIgnoresRowOrder(o1: seq<Pending>, r1: seq<Row>, o2: seq<Pending>, r2: seq<Row>, c: Context)
    requires JoinedRows(r1) && JoinedRows(r2) && forall r :: r in r1 <==> r in r2
    requires GroupedBy(o1, r1, DeciderFor(c)) && GroupedBy(o2, r2, DeciderFor(c))
    ensures o1 == o2
  {
    DeciderOrderBlind(c);
    GroupingIgnoresOrderAndDuplicates(o1, r1, o2, r2, DeciderFor(c));
  }
}
