/** The streaming group-by of internal/store/policyrun.go, for any function that decides one
    (domain, category) pair from its evidence. */
module GroupBy {
  import opened Names
  import opened Rules
  import opened Policy
  import opened Sorting

  type Key = (int, int)  // (domain_id, category_id)

  datatype Row = Row(
    domainId: int, domain: string, categoryId: int, category: string,
    sourceName: string, origin: Origin, trust: int, confidence: Option<int>,
    lastSeen: int, validUntil: Option<int>, revokedAt: Option<int>)

  /** A decision waiting to be written. */
  datatype Pending = Pending(
    domainId: int, categoryId: int, action: Action, score: int, independent: int, reason: Reason, matched: seq<string>)

  function RowKey(r: Row): Key {
    (r.domainId, r.categoryId)
  }

  function PendingKey(p: Pending): Key {
    (p.domainId, p.categoryId)
  }

  predicate KeyLess(a: Key, b: Key) {
    a.0 < b.0 || (a.0 == b.0 && a.1 < b.1)
  }

  /** toEvidence: a missing confidence counts as 50. */
  function ToEvidence(r: Row): Evidence {
    Evidence(r.sourceName, r.origin, r.trust, if r.confidence.Some? then r.confidence.value else 50,
             r.lastSeen, r.validUntil, r.revokedAt)
  }

  /** The scan's variables besides the list it emits. */
  datatype Open = Open(domainId: int, categoryId: int, domain: string, category: string)

  const NONE_OPEN := Open(-1, -1, "", "")

  function OpenKey(o: Open): Key {
    (o.domainId, o.categoryId)
  }

  function OpenedBy(r: Row): Open {
    Open(r.domainId, r.categoryId, r.domain, r.category)
  }

  // ----- the simple group-by -----

  ghost predicate SortedRows(rows: seq<Row>) {
    forall i, j :: 0 <= i < j < |rows| ==> RowKey(rows[i]) == RowKey(rows[j]) || KeyLess(RowKey(rows[i]), RowKey(rows[j]))
  }

  /** Names are joined by id, so rows of one pair agree on them. Ids come from sequences. */
  ghost predicate JoinedRows(rows: seq<Row>) {
    && (forall r :: r in rows ==> r.domainId >= 0)
    && (forall r, s :: r in rows && s in rows && RowKey(r) == RowKey(s) ==> r.domain == s.domain && r.category == s.category)
  }

  /** The evidence of exactly one pair, in row order. */
  function EvidenceOf(rows: seq<Row>, k: Key): seq<Evidence> {
    if rows == [] then []
    else EvidenceOf(rows[..|rows| - 1], k) + if RowKey(rows[|rows| - 1]) == k then [ToEvidence(rows[|rows| - 1])] else []
  }

  lemma {:induction false} EvidenceOfMember(rows: seq<Row>, k: Key, e: Evidence)
    ensures e in EvidenceOf(rows, k) <==> exists r :: r in rows && RowKey(r) == k && ToEvidence(r) == e
  {
    if rows != [] {
      var front, last := rows[..|rows| - 1], rows[|rows| - 1];
      EvidenceOfMember(front, k, e);
      assert rows == front + [last];
      assert forall r :: r in rows <==> r in front || r == last;
    }
  }

  lemma {:induction false} NoRowsNoEvidence(rows: seq<Row>, k: Key)
    requires forall r :: r in rows ==> RowKey(r) != k
    ensures EvidenceOf(rows, k) == []
  {
    if rows != [] {
      assert rows[|rows| - 1] in rows;
      NoRowsNoEvidence(rows[..|rows| - 1], k);
    }
  }

  /** How one group is decided. */
  type Decider = (Open, seq<Evidence>) -> Pending

  ghost predicate KeepsKey(d: Decider) {
    forall o, e :: PendingKey(d(o, e)) == OpenKey(o)
  }

  /** p was decided from the rows of its own pair, and from all of them. */
  ghost predicate FromGroup(p: Pending, rows: seq<Row>, d: Decider) {
    exists r :: r in rows && RowKey(r) == PendingKey(p) && p == d(OpenedBy(r), EvidenceOf(rows, RowKey(r)))
  }

  ghost predicate Ascending(out: seq<Pending>) {
    forall a, b :: 0 <= a < b < |out| ==> PendingLess(out[a], out[b])
  }

  ghost predicate AllBelow(out: seq<Pending>, k: Key) {
    forall p :: p in out ==> KeyLess(PendingKey(p), k)
  }

  ghost predicate AllFromGroups(out: seq<Pending>, rows: seq<Row>, d: Decider) {
    forall p :: p in out ==> FromGroup(p, rows, d)
  }

  ghost predicate HasKey(out: seq<Pending>, k: Key) {
    exists p :: p in out && PendingKey(p) == k
  }

  ghost predicate AllEmitted(out: seq<Pending>, rows: seq<Row>) {
    forall r :: r in rows ==> HasKey(out, RowKey(r))
  }

  /** One decision per distinct pair, in key order, each made from that pair's rows alone. */
  ghost predicate GroupedBy(out: seq<Pending>, rows: seq<Row>, d: Decider) {
    Ascending(out) && AllFromGroups(out, rows, d) && AllEmitted(out, rows)
  }

  predicate PendingLess(p: Pending, q: Pending) {
    KeyLess(PendingKey(p), PendingKey(q))
  }

  lemma {:induction false} KeySortedUnique(s: seq<Pending>, t: seq<Pending>)
    requires forall i, j :: 0 <= i < j < |s| ==> PendingLess(s[i], s[j])
    requires forall i, j :: 0 <= i < j < |t| ==> PendingLess(t[i], t[j])
    requires forall p :: p in s <==> p in t
    ensures s == t
  {
    if s != [] && t != [] {
      assert s[0] in t && t[0] in s;
      assert s == [s[0]] + s[1..] && t == [t[0]] + t[1..];
      forall p ensures p in s[1..] <==> p in t[1..] {
        assert p in s <==> p in t;
        assert p in s[1..] ==> PendingLess(s[0], p);
        assert p in t[1..] ==> PendingLess(t[0], p);
      }
      KeySortedUnique(s[1..], t[1..]);
    } else {
      if s != [] { SomeMember(s); }
      if t != [] { SomeMember(t); }
    }
  }

  // ----- the streaming scan -----

  datatype Scan = Scan(pending: seq<Pending>, cur: Open, evidence: seq<Evidence>)

  /** The flush closure: nothing to do before the first row. */
  ghost function Flushed(s: Scan, d: Decider): seq<Pending> {
    if s.cur.domainId < 0 then s.pending else s.pending + [d(s.cur, s.evidence)]
  }

  ghost function ScanStep(s: Scan, r: Row, d: Decider): Scan {
    if r.domainId != s.cur.domainId || r.categoryId != s.cur.categoryId then
      Scan(Flushed(s, d), OpenedBy(r), [ToEvidence(r)])
    else
      s.(evidence := s.evidence + [ToEvidence(r)])
  }

  /** The scan's variables after these rows. */
  ghost function ScanOf(rows: seq<Row>, d: Decider): Scan {
    if rows == [] then Scan([], NONE_OPEN, [])
    else ScanStep(ScanOf(rows[..|rows| - 1], d), rows[|rows| - 1], d)
  }

  lemma {:induction false} LaterRowsDoNotAdd(rows: seq<Row>, i: nat, k: Key)
    requires i <= |rows|
    requires forall j :: i <= j < |rows| ==> RowKey(rows[j]) != k
    ensures EvidenceOf(rows, k) == EvidenceOf(rows[..i], k)
  {
    if i == |rows| {
      assert rows[..i] == rows;
    } else {
      var front := rows[..|rows| - 1];
      LaterRowsDoNotAdd(front, i, k);
      assert front[..i] == rows[..i];
    }
  }

  lemma LaterKeysDiffer(rows: seq<Row>, i: nat)
    requires SortedRows(rows) && 0 < i <= |rows|
    requires i < |rows| ==> RowKey(rows[i]) != RowKey(rows[i - 1])
    ensures forall j :: i <= j < |rows| ==> RowKey(rows[j]) != RowKey(rows[i - 1])
  {
    forall j | i <= j < |rows| ensures RowKey(rows[j]) != RowKey(rows[i - 1]) {
      assert RowKey(rows[i]) == RowKey(rows[j]) || KeyLess(RowKey(rows[i]), RowKey(rows[j]));
      assert KeyLess(RowKey(rows[i - 1]), RowKey(rows[i]));
    }
  }

  /** After i rows: a finished list, and one open group holding exactly its rows so far. */
  ghost predicate Scanning(rows: seq<Row>, i: nat, s: Scan, d: Decider)
    requires 0 < i <= |rows|
  {
    && s.cur == OpenedBy(rows[i - 1])
    && s.evidence == EvidenceOf(rows[..i], OpenKey(s.cur))
    && Ascending(s.pending) && AllBelow(s.pending, OpenKey(s.cur))
    && AllFromGroups(s.pending, rows, d)
    && (forall r :: r in rows[..i] ==> RowKey(r) == OpenKey(s.cur) || HasKey(s.pending, RowKey(r)))
  }

  /** Closing the open group when the next row (if any) has another key. */
  lemma CloseGroup(rows: seq<Row>, i: nat, s: Scan, d: Decider)
    requires SortedRows(rows) && JoinedRows(rows) && KeepsKey(d) && 0 < i <= |rows|
    requires Scanning(rows, i, s, d)
    requires i < |rows| ==> RowKey(rows[i]) != OpenKey(s.cur)
    ensures Ascending(Flushed(s, d)) && AllFromGroups(Flushed(s, d), rows, d) && AllEmitted(Flushed(s, d), rows[..i])
    ensures forall p :: p in Flushed(s, d) ==> KeyLess(PendingKey(p), OpenKey(s.cur)) || PendingKey(p) == OpenKey(s.cur)
  {
    var k, p := OpenKey(s.cur), d(s.cur, s.evidence);
    var out := s.pending + [p];
    assert rows[i - 1] in rows;
    assert out == Flushed(s, d);
    LaterKeysDiffer(rows, i);
    LaterRowsDoNotAdd(rows, i, k);
    assert FromGroup(p, rows, d);
    assert PendingKey(p) == k;
    forall r | r in rows[..i] ensures HasKey(out, RowKey(r)) {
      if RowKey(r) == k {
        assert p in out;
      } else {
        var q :| q in s.pending && PendingKey(q) == RowKey(r);
        assert q in out;
      }
    }
  }

  /** Reading one more row of the open group. */
  lemma ExtendGroup(rows: seq<Row>, i: nat, s: Scan, d: Decider)
    requires JoinedRows(rows) && 0 < i < |rows| && Scanning(rows, i, s, d)
    requires RowKey(rows[i]) == OpenKey(s.cur)
    ensures Scanning(rows, i + 1, ScanStep(s, rows[i], d), d)
  {
    assert rows[i] in rows && rows[i - 1] in rows;
    assert rows[..i + 1][..i] == rows[..i];
    assert rows[..i + 1] == rows[..i] + [rows[i]];
  }

  /** Opening a group at row i, after everything before it was emitted. */
  lemma OpenGroup(rows: seq<Row>, i: nat, out: seq<Pending>, d: Decider)
    requires i < |rows| && Ascending(out) && AllBelow(out, RowKey(rows[i]))
    requires AllFromGroups(out, rows, d) && AllEmitted(out, rows[..i])
    ensures Scanning(rows, i + 1, Scan(out, OpenedBy(rows[i]), [ToEvidence(rows[i])]), d)
  {
    var k := RowKey(rows[i]);
    forall r | r in rows[..i] ensures RowKey(r) != k {
      var p :| p in out && PendingKey(p) == RowKey(r);
    }
    NoRowsNoEvidence(rows[..i], k);
    assert rows[..i + 1][..i] == rows[..i];
    assert rows[..i + 1] == rows[..i] + [rows[i]];
  }

  lemma ScanNext(rows: seq<Row>, i: nat, s: Scan, d: Decider)
    requires SortedRows(rows) && JoinedRows(rows) && KeepsKey(d) && 0 < i < |rows|
    requires Scanning(rows, i, s, d)
    ensures Scanning(rows, i + 1, ScanStep(s, rows[i], d), d)
  {
    assert rows[i - 1] in rows;
    if RowKey(rows[i]) == OpenKey(s.cur) {
      ExtendGroup(rows, i, s, d);
    } else {
      CloseGroup(rows, i, s, d);
      assert KeyLess(RowKey(rows[i - 1]), RowKey(rows[i]));
      OpenGroup(rows, i, Flushed(s, d), d);
    }
  }

  lemma ScanOfStep(rows: seq<Row>, i: nat, d: Decider)
    requires i < |rows|
    ensures ScanOf(rows[..i + 1], d) == ScanStep(ScanOf(rows[..i], d), rows[i], d)
  {
    assert rows[..i + 1][..i] == rows[..i];
  }

  lemma FirstRow(rows: seq<Row>, d: Decider)
    requires JoinedRows(rows) && rows != []
    ensures Scanning(rows, 1, ScanStep(ScanOf(rows[..0], d), rows[0], d), d)
  {
    assert rows[0] in rows;
    OpenGroup(rows, 0, [], d);
  }

  lemma {:induction false} ScanInvariant(rows: seq<Row>, i: nat, d: Decider)
    requires SortedRows(rows) && JoinedRows(rows) && KeepsKey(d) && 0 < i <= |rows|
    ensures Scanning(rows, i, ScanOf(rows[..i], d), d)
  {
    ScanOfStep(rows, i - 1, d);
    if i == 1 {
      FirstRow(rows, d);
    } else {
      ScanInvariant(rows, i - 1, d);
      ScanNext(rows, i - 1, ScanOf(rows[..i - 1], d), d);
    }
  }

  /** The one-pass scan over sorted rows computes the simple group-by. */
  lemma StreamingGroupsCorrectly(rows: seq<Row>, d: Decider)
    requires SortedRows(rows) && JoinedRows(rows) && KeepsKey(d)
    ensures GroupedBy(Flushed(ScanOf(rows, d), d), rows, d)
  {
    if rows != [] {
      assert rows[..|rows|] == rows;
      ScanInvariant(rows, |rows|, d);
      CloseGroup(rows, |rows|, ScanOf(rows, d), d);
    }
  }

  // ----- the result is unique, and blind to order and duplicates inside a group -----

  /** A decider that looks at the evidence as a set only. */
  ghost predicate OrderBlind(d: Decider) {
    forall o, e1, e2 :: SameElements(e1, e2) ==> d(o, e1) == d(o, e2)
  }

  ghost predicate SameElements(e1: seq<Evidence>, e2: seq<Evidence>) {
    forall e :: e in e1 <==> e in e2
  }

  lemma SameGroupSameDecision(p: Pending, q: Pending, r1: seq<Row>, r2: seq<Row>, d: Decider)
    requires JoinedRows(r1) && OrderBlind(d) && forall r :: r in r1 <==> r in r2
    requires FromGroup(p, r1, d) && FromGroup(q, r2, d) && PendingKey(p) == PendingKey(q)
    ensures p == q
  {
    var k := PendingKey(p);
    var a :| a in r1 && RowKey(a) == k && p == d(OpenedBy(a), EvidenceOf(r1, k));
    var b :| b in r2 && RowKey(b) == k && q == d(OpenedBy(b), EvidenceOf(r2, k));
    forall e ensures e in EvidenceOf(r1, k) <==> e in EvidenceOf(r2, k) {
      EvidenceOfMember(r1, k, e);
      EvidenceOfMember(r2, k, e);
    }
    assert SameElements(EvidenceOf(r1, k), EvidenceOf(r2, k));
    assert b in r1;
  }

  lemma GroupMember(p: Pending, o1: seq<Pending>, r1: seq<Row>, o2: seq<Pending>, r2: seq<Row>, d: Decider)
    requires JoinedRows(r1) && OrderBlind(d) && forall r :: r in r1 <==> r in r2
    requires GroupedBy(o1, r1, d) && GroupedBy(o2, r2, d) && p in o1
    ensures p in o2
  {
    assert FromGroup(p, r1, d);
    var r :| r in r1 && RowKey(r) == PendingKey(p);
    assert HasKey(o2, RowKey(r));
    var q :| q in o2 && PendingKey(q) == PendingKey(p);
    SameGroupSameDecision(p, q, r1, r2, d);
  }

  /** Any two result sets with the same rows, whatever their order inside each group and
      however often a row repeats, give the same list of decisions. */
  lemma GroupingIgnoresOrderAndDuplicates(o1: seq<Pending>, r1: seq<Row>, o2: seq<Pending>, r2: seq<Row>, d: Decider)
    requires JoinedRows(r1) && JoinedRows(r2) && OrderBlind(d) && forall r :: r in r1 <==> r in r2
    requires GroupedBy(o1, r1, d) && GroupedBy(o2, r2, d)
    ensures o1 == o2
  {
    forall p ensures p in o1 <==> p in o2 {
      if p in o1 { GroupMember(p, o1, r1, o2, r2, d); }
      if p in o2 { GroupMember(p, o2, r2, o1, r1, d); }
    }
    KeySortedUnique(o1, o2);
  }
}
