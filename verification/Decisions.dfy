/** writeDecisions: the current decision of every pair, and the log of its changes. */
module Decisions {
  import opened Rules
  import opened Policy
  import opened GroupBy

  datatype Stored = Stored(action: Action, score: int, independent: int, reason: Reason, matched: seq<string>, runId: int)

  datatype Change = Change(
    key: Key, oldAction: Option<Action>, newAction: Action,
    oldScore: Option<int>, newScore: int, reason: Reason, runId: int)

  datatype DB = DB(decisions: map<Key, Stored>, changes: seq<Change>)

  const EMPTY_DB := DB(map[], [])

  function StoredOf(p: Pending, runId: int): Stored {
    Stored(p.action, p.score, p.independent, p.reason, p.matched, runId)
  }

  predicate ActionDiffers(decisions: map<Key, Stored>, p: Pending) {
    PendingKey(p) !in decisions || decisions[PendingKey(p)].action != p.action
  }

  function ChangeOf(decisions: map<Key, Stored>, p: Pending, runId: int): Change {
    var k := PendingKey(p);
    if k in decisions then Change(k, Some(decisions[k].action), p.action, Some(decisions[k].score), p.score, p.reason, runId)
    else Change(k, None, p.action, None, p.score, p.reason, runId)
  }

  /** The INSERT ... SELECT into decision_changes. */
  function ChangesFor(decisions: map<Key, Stored>, staged: seq<Pending>, runId: int): seq<Change> {
    if staged == [] then []
    else
      var last := staged[|staged| - 1];
      ChangesFor(decisions, staged[..|staged| - 1], runId) +
      if ActionDiffers(decisions, last) then [ChangeOf(decisions, last, runId)] else []
  }

  /** The upsert into domain_decisions. */
  function Upserted(decisions: map<Key, Stored>, staged: seq<Pending>, runId: int): map<Key, Stored> {
    if staged == [] then decisions
    else
      var last := staged[|staged| - 1];
      Upserted(decisions, staged[..|staged| - 1], runId)[PendingKey(last) := StoredOf(last, runId)]
  }

  function StagedKeys(staged: seq<Pending>): set<Key> {
    set p | p in staged :: PendingKey(p)
  }

  /** One transaction. A run without decisions writes nothing at all. */
  function Written(db: DB, staged: seq<Pending>, runId: int): DB {
    if staged == [] then db
    else
      var up := Upserted(db.decisions, staged, runId);
      DB(map k | k in up && k in StagedKeys(staged) :: up[k], db.changes + ChangesFor(db.decisions, staged, runId))
  }

  ghost predicate DistinctKeys(staged: seq<Pending>) {
    forall i, j :: 0 <= i < j < |staged| ==> PendingKey(staged[i]) != PendingKey(staged[j])
  }

  class DecisionStore {
    var decisions: map<Key, Stored>
    var changes: seq<Change>

    ghost function Value(): DB
      reads this
    {
      DB(decisions, changes)
    }

    constructor ()
      ensures Value() == EMPTY_DB
    {
      decisions, changes := map[], [];
    }

    method LogChanges(runId: int, staged: seq<Pending>) returns (changed: nat)
      modifies this`changes
      ensures changes == old(changes) + ChangesFor(decisions, staged, runId)
      ensures changed == |ChangesFor(decisions, staged, runId)|
    {
      changed := 0;
      for i := 0 to |staged|
        invariant changes == old(changes) + ChangesFor(decisions, staged[..i], runId)
        invariant changed == |ChangesFor(decisions, staged[..i], runId)|
      {
        assert staged[..i + 1][..i] == staged[..i];
        if ActionDiffers(decisions, staged[i]) {
          changes := changes + [ChangeOf(decisions, staged[i], runId)];
          changed := changed + 1;
        }
      }
      assert staged[..|staged|] == staged;
    }

    method UpsertAll(runId: int, staged: seq<Pending>)
      modifies this`decisions
      ensures decisions == Upserted(old(decisions), staged, runId)
    {
      for i := 0 to |staged|
        invariant decisions == Upserted(old(decisions), staged[..i], runId)
      {
        assert staged[..i + 1][..i] == staged[..i];
        decisions := decisions[PendingKey(staged[i]) := StoredOf(staged[i], runId)];
      }
      assert staged[..|staged|] == staged;
    }

    /** The change log is written before the upsert, while the old actions are still there. */
    method WriteDecisions(runId: int, staged: seq<Pending>) returns (changed: nat)
      requires DistinctKeys(staged)
      modifies this
      ensures Value() == Written(old(Value()), staged, runId)
      ensures changed == |changes| - |old(changes)| == |ChangedKeys(old(decisions), staged)|
    {
      LoggedExactlyTheChanges(decisions, staged, runId);
      if |staged| == 0 { return 0; }
      changed := LogChanges(runId, staged);
      UpsertAll(runId, staged);
      var keys := StagedKeys(staged);
      decisions := map k | k in decisions && k in keys :: decisions[k];
    }
  }

  // ----- what one run leaves behind -----

  lemma {:induction false} UpsertedKeys(decisions: map<Key, Stored>, staged: seq<Pending>, runId: int)
    ensures Upserted(decisions, staged, runId).Keys == decisions.Keys + StagedKeys(staged)
  {
    if staged != [] {
      var front, last := staged[..|staged| - 1], staged[|staged| - 1];
      UpsertedKeys(decisions, front, runId);
      assert staged == front + [last];
      assert StagedKeys(staged) == StagedKeys(front) + {PendingKey(last)};
    }
  }

  lemma {:induction false} UpsertedValue(decisions: map<Key, Stored>, staged: seq<Pending>, runId: int, p: Pending)
    requires DistinctKeys(staged) && p in staged
    ensures var up := Upserted(decisions, staged, runId);
            PendingKey(p) in up && up[PendingKey(p)] == StoredOf(p, runId)
  {
    var front, last := staged[..|staged| - 1], staged[|staged| - 1];
    assert staged == front + [last];
    if p != last {
      assert p in front;
      UpsertedValue(decisions, front, runId, p);
      var i :| 0 <= i < |front| && front[i] == p;
      assert PendingKey(staged[i]) != PendingKey(staged[|staged| - 1]);
    }
  }

  /** After a run that decided anything, the table holds the staged pairs and nothing else,
      with the staged values. */
  lemma TableIsStaging(db: DB, staged: seq<Pending>, runId: int)
    requires DistinctKeys(staged) && staged != []
    ensures Written(db, staged, runId).decisions.Keys == StagedKeys(staged)
    ensures forall p :: p in staged ==> Written(db, staged, runId).decisions[PendingKey(p)] == StoredOf(p, runId)
  {
    UpsertedKeys(db.decisions, staged, runId);
    forall p | p in staged ensures PendingKey(p) in StagedKeys(staged) && Written(db, staged, runId).decisions[PendingKey(p)] == StoredOf(p, runId) {
      UpsertedValue(db.decisions, staged, runId, p);
    }
  }

  /** The pairs whose action is not what the table said before (absent pairs included). */
  function ChangedKeys(decisions: map<Key, Stored>, staged: seq<Pending>): set<Key> {
    set p | p in staged && ActionDiffers(decisions, p) :: PendingKey(p)
  }

  /** The number of logged changes is exactly the number of such pairs. */
  lemma {:induction false} LoggedExactlyTheChanges(decisions: map<Key, Stored>, staged: seq<Pending>, runId: int)
    requires DistinctKeys(staged)
    ensures |ChangesFor(decisions, staged, runId)| == |ChangedKeys(decisions, staged)|
  {
    if staged != [] {
      LoggedExactlyTheChanges(decisions, staged[..|staged| - 1], runId);
      ChangedKeysGrow(decisions, staged);
    }
  }

  lemma ChangedKeysGrow(decisions: map<Key, Stored>, staged: seq<Pending>)
    requires DistinctKeys(staged) && staged != []
    ensures var front, last := staged[..|staged| - 1], staged[|staged| - 1];
            PendingKey(last) !in ChangedKeys(decisions, front) &&
            ChangedKeys(decisions, staged) ==
            ChangedKeys(decisions, front) + if ActionDiffers(decisions, last) then {PendingKey(last)} else {}
  {
    var front, last := staged[..|staged| - 1], staged[|staged| - 1];
    assert staged == front + [last];
    forall p | p in front ensures PendingKey(p) != PendingKey(last) {
      var i :| 0 <= i < |front| && front[i] == p;
      assert PendingKey(staged[i]) != PendingKey(staged[|staged| - 1]);
    }
  }

  // ----- the log explains the table, over all runs -----

  /** new_action of the pair's latest change entry. */
  function LatestAction(changes: seq<Change>, k: Key): Option<Action> {
    if changes == [] then None
    else if changes[|changes| - 1].key == k then Some(changes[|changes| - 1].newAction)
    else LatestAction(changes[..|changes| - 1], k)
  }

  lemma {:induction false} LatestAfter(log: seq<Change>, more: seq<Change>, k: Key)
    ensures LatestAction(log + more, k) ==
            if LatestAction(more, k).Some? then LatestAction(more, k) else LatestAction(log, k)
  {
    if more == [] {
      assert log + more == log;
    } else {
      var front := more[..|more| - 1];
      assert (log + more)[..|log + more| - 1] == log + front;
      LatestAfter(log, front, k);
    }
  }

  lemma LatestAppend(log: seq<Change>, c: Change, k: Key)
    ensures LatestAction(log + [c], k) == if c.key == k then Some(c.newAction) else LatestAction(log, k)
  {
    assert (log + [c])[..|log|] == log;
  }

  lemma ChangesForLast(decisions: map<Key, Stored>, staged: seq<Pending>, runId: int, k: Key)
    requires staged != []
    ensures var last, c := staged[|staged| - 1], ChangesFor(decisions, staged[..|staged| - 1], runId);
            LatestAction(ChangesFor(decisions, staged, runId), k) ==
            if ActionDiffers(decisions, last) && PendingKey(last) == k then Some(last.action) else LatestAction(c, k)
  {
    var last, c := staged[|staged| - 1], ChangesFor(decisions, staged[..|staged| - 1], runId);
    LatestAppend(c, ChangeOf(decisions, last, runId), k);
    assert c + [] == c;
  }

  lemma {:induction false} LatestOfRun(decisions: map<Key, Stored>, staged: seq<Pending>, runId: int, p: Pending)
    requires DistinctKeys(staged) && p in staged
    ensures LatestAction(ChangesFor(decisions, staged, runId), PendingKey(p)) ==
            if ActionDiffers(decisions, p) then Some(p.action) else None
  {
    var front, last := staged[..|staged| - 1], staged[|staged| - 1];
    assert staged == front + [last];
    ChangesForLast(decisions, staged, runId, PendingKey(p));
    if p == last {
      NoEntryOutside(decisions, front, runId, PendingKey(p));
    } else {
      assert p in front;
      LatestOfRun(decisions, front, runId, p);
      var i :| 0 <= i < |front| && front[i] == p;
      assert PendingKey(staged[i]) != PendingKey(staged[|staged| - 1]);
    }
  }

  lemma {:induction false} NoEntryOutside(decisions: map<Key, Stored>, staged: seq<Pending>, runId: int, k: Key)
    requires forall p :: p in staged ==> PendingKey(p) != k
    ensures LatestAction(ChangesFor(decisions, staged, runId), k) == None
  {
    if staged != [] {
      assert staged[|staged| - 1] in staged;
      NoEntryOutside(decisions, staged[..|staged| - 1], runId, k);
      ChangesForLast(decisions, staged, runId, k);
    }
  }

  ghost predicate LogAgrees(db: DB) {
    forall k :: k in db.decisions ==> LatestAction(db.changes, k) == Some(db.decisions[k].action)
  }

  lemma WriteKeepsLogAgreement(db: DB, staged: seq<Pending>, runId: int)
    requires LogAgrees(db) && DistinctKeys(staged)
    ensures LogAgrees(Written(db, staged, runId))
  {
    if staged != [] {
      var after := Written(db, staged, runId);
      TableIsStaging(db, staged, runId);
      forall k | k in after.decisions ensures LatestAction(after.changes, k) == Some(after.decisions[k].action) {
        assert k in StagedKeys(staged);
        var p :| p in staged && PendingKey(p) == k;
        LatestOfRun(db.decisions, staged, runId, p);
        LatestAfter(db.changes, ChangesFor(db.decisions, staged, runId), k);
      }
    }
  }

  datatype Run = Run(runId: int, staged: seq<Pending>)

  function AfterRuns(db: DB, runs: seq<Run>): DB {
    if runs == [] then db
    else
      var last := runs[|runs| - 1];
      Written(AfterRuns(db, runs[..|runs| - 1]), last.staged, last.runId)
  }

  /** In every reachable state, each current decision is explained by the latest entry that
      the log has for its pair. */
  lemma {:induction false} LogExplainsEveryDecision(runs: seq<Run>)
    requires forall r :: r in runs ==> DistinctKeys(r.staged)
    ensures LogAgrees(AfterRuns(EMPTY_DB, runs))
  {
    if runs != [] {
      var last := runs[|runs| - 1];
      assert last in runs;
      LogExplainsEveryDecision(runs[..|runs| - 1]);
      WriteKeepsLogAgreement(AfterRuns(EMPTY_DB, runs[..|runs| - 1]), last.staged, last.runId);
    }
  }

  /** Rerunning the policy on unchanged input logs nothing. */
  lemma RerunLogsNothing(db: DB, staged: seq<Pending>, run1: int, run2: int)
    requires DistinctKeys(staged)
    ensures Written(Written(db, staged, run1), staged, run2).changes == Written(db, staged, run1).changes
  {
    if staged != [] {
      var mid := Written(db, staged, run1);
      TableIsStaging(db, staged, run1);
      forall p | p in staged ensures !ActionDiffers(mid.decisions, p) {
        assert PendingKey(p) in StagedKeys(staged);
      }
      LoggedExactlyTheChanges(mid.decisions, staged, run2);
      assert ChangedKeys(mid.decisions, staged) == {};
    }
  }

  /** The group-by delivers what writeDecisions needs: no pair twice. */
  lemma GroupedKeysDistinct(out: seq<Pending>, rows: seq<Row>, d: Decider)
    requires GroupedBy(out, rows, d)
    ensures DistinctKeys(out)
  {
    forall i, j | 0 <= i < j < |out| ensures PendingKey(out[i]) != PendingKey(out[j]) {
      assert PendingLess(out[i], out[j]);
    }
  }
}
