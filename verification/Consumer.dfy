/** internal/syncconsumer/consumer.go: applying one stream event and batching the checkpoint. */
module Consumer {
  import opened Rules
  import opened Tables
  import opened TableRuns
  import Store

  datatype Kind = UpsertEvent | DeleteEvent | MergeEvent

  /** A decoded event. `record` is None when the object names no domain or is marked as not
      for detection. */
  datatype Event = Event(
    id: string, kind: Kind, record: Option<Indicator>, objectId: string, mergedFrom: seq<string>, time: Option<int>)

  datatype Outcome = Applied | Skipped | Stale | Failed

  /** Which database calls succeed while one event is handled. */
  datatype Weather = Weather(storeOk: bool, upsertOk: bool, saveOk: bool)

  /** The checkpoint waiting to be written. */
  datatype Pending = Pending(id: string, at: Option<int>, count: nat, lastFlush: int)

  /** The stored checkpoint; "" stands for NULL. */
  datatype Checkpoint = Checkpoint(lastEventId: string, lastEventAt: Option<int>, eventsSeen: nat)

  datatype Options = Options(src: Source, every: int, after: int)

  /** New replaces missing limits by 100 events and 10 seconds. */
  function WithDefaults(o: Options): Options {
    o.(every := if o.every <= 0 then 100 else o.every, after := if o.after <= 0 then 10_000_000_000 else o.after)
  }

  // ----- effects of one event on the tables -----

  datatype Effect = Effect(steps: seq<Step>, outcome: Outcome)

  function UpsertEffect(db: L1, src: Source, ev: Event, now: int, ok: bool): Effect {
    if ev.record.None? then Effect([], Skipped)
    else if !ok then Effect([], Failed)
    else
      Effect([Upsert(src, ev.record.value, now)],
             match UpsertDecision(db, src, ev.record.value)
             case Done => Applied
             case StaleEvent => Stale
             case Rejected => Failed)
  }

  function CarriedRows(db: L1, source: int, stixId: string): set<SourceKey> {
    set k | k in db.sources && Carries(k, db.sources[k], source, {stixId})
  }

  function EffectOf(db: L1, src: Source, ev: Event, now: int, w: Weather): Effect {
    match ev.kind
    case DeleteEvent =>
      if ev.objectId == "" then Effect([], Skipped)
      else if !w.storeOk then Effect([], Failed)
      else Effect([Delete(src.id, ev.objectId)], if CarriedRows(db, src.id, ev.objectId) == {} then Skipped else Applied)
    case MergeEvent =>
      if ev.objectId == "" || |ev.mergedFrom| == 0 then Effect([], Skipped)
      else if !w.storeOk then Effect([], Failed)
      else
        var remap := Merge(src.id, ev.mergedFrom, ev.objectId);
        var up := UpsertEffect(After(db, remap), src, ev, now, w.upsertOk);
        Effect([remap] + up.steps, up.outcome)
    case UpsertEvent => UpsertEffect(db, src, ev, now, w.upsertOk)
  }

  lemma AfterOne(db: L1, s: Step)
    ensures AfterRun(db, [s]) == After(db, s)
  {
    assert [s][..0] == [];
  }

  lemma AfterTwo(db: L1, s: Step, t: Step)
    ensures AfterRun(db, [s, t]) == After(After(db, s), t)
  {
    assert [s, t][..1] == [s];
    AfterOne(db, s);
  }

  // ----- checkpoint arithmetic -----

  /** Handle records the event before it looks at the error. */
  function Recorded(p: Pending, ev: Event): Pending {
    Pending(ev.id, if ev.time.Some? then ev.time else p.at, p.count + 1, p.lastFlush)
  }

  predicate FlushDue(p: Pending, o: Options, now: int) {
    p.count != 0 && !(p.count < o.every && now - p.lastFlush < o.after)
  }

  /** SaveStreamState: COALESCE on id and time, addition on the counter. */
  function Saved(c: Checkpoint, p: Pending): Checkpoint {
    Checkpoint(if p.id == "" then c.lastEventId else p.id, if p.at.Some? then p.at else c.lastEventAt, c.eventsSeen + p.count)
  }

  datatype Flushed = Flushed(pending: Pending, checkpoint: Checkpoint, ok: bool)

  function FlushResult(p: Pending, c: Checkpoint, saveOk: bool, clock: int): Flushed {
    if p.count == 0 then Flushed(p, c, true)
    else if !saveOk then Flushed(p, c, false)
    else Flushed(p.(count := 0, lastFlush := clock), Saved(c, p), true)
  }

  /** Handle: apply, record, and flush only if the event did not fail. */
  function HandleResult(p: Pending, c: Checkpoint, ev: Event, outcome: Outcome, o: Options, now: int, saveOk: bool, clock: int): Flushed {
    var q := Recorded(p, ev);
    if outcome == Failed then Flushed(q, c, false)
    else if !FlushDue(q, o, now) then Flushed(q, c, true)
    else FlushResult(q, c, saveOk, clock)
  }

  class CheckpointTable {
    var row: Checkpoint

    constructor ()
      ensures row == Checkpoint("", None, 0)
    {
      row := Checkpoint("", None, 0);
    }

    method SaveStreamState(eventId: string, eventAt: Option<int>, processed: nat, ok: bool) returns (done: bool)
      modifies this
      ensures done == ok
      ensures row == if ok then Saved(old(row), Pending(eventId, eventAt, processed, 0)) else old(row)
    {
      if !ok { return false; }
      row := Checkpoint(if eventId == "" then row.lastEventId else eventId,
                        if eventAt.Some? then eventAt else row.lastEventAt,
                        row.eventsSeen + processed);
      return true;
    }
  }

  class Consumer {
    const db: Store.L1Store
    const state: CheckpointTable
    const opts: Options
    var pendingId: string
    var pendingAt: Option<int>
    var pendingCount: nat
    var lastFlush: int

    ghost function Waiting(): Pending
      reads this
    {
      Pending(pendingId, pendingAt, pendingCount, lastFlush)
    }

    constructor (db: Store.L1Store, state: CheckpointTable, opts: Options, clock: int)
      ensures this.db == db && this.state == state && this.opts == WithDefaults(opts)
      ensures Waiting() == Pending("", None, 0, clock)
    {
      this.db, this.state, this.opts := db, state, WithDefaults(opts);
      pendingId, pendingAt, pendingCount, lastFlush := "", None, 0, clock;
    }

    method HandleUpsert(ev: Event, now: int, ok: bool) returns (outcome: Outcome)
      modifies db
      ensures var e := UpsertEffect(old(db.Value()), opts.src, ev, now, ok);
              outcome == e.outcome && db.Value() == AfterRun(old(db.Value()), e.steps)
    {
      match ev.record
      case None => return Skipped;
      case Some(rec) =>
        if !ok { return Failed; }
        AfterOne(db.Value(), Upsert(opts.src, rec, now));
        var d := db.UpsertOpenCTI(opts.src, rec, now);
        match d
        case StaleEvent => return Stale;
        case Rejected => return Failed;
        case Done => return Applied;
    }

    method HandleDelete(ev: Event, ok: bool) returns (outcome: Outcome)
      requires ev.kind == DeleteEvent
      modifies db
      ensures forall now, w: Weather :: w.storeOk == ok ==>
                var e := EffectOf(old(db.Value()), opts.src, ev, now, w);
                outcome == e.outcome && db.Value() == AfterRun(old(db.Value()), e.steps)
    {
      if ev.objectId == "" { return Skipped; }
      if !ok { return Failed; }
      AfterOne(db.Value(), Delete(opts.src.id, ev.objectId));
      ghost var carried := CarriedRows(db.Value(), opts.src.id, ev.objectId);
      var n := db.DeleteOpenCTI(opts.src.id, ev.objectId);
      assert n == |carried|;
      if n == 0 { return Skipped; }
      return Applied;
    }

    /** Remap first, then write the surviving entity. */
    method HandleMerge(ev: Event, now: int, storeOk: bool, upsertOk: bool) returns (outcome: Outcome)
      requires ev.kind == MergeEvent
      modifies db
      ensures forall w: Weather :: w.storeOk == storeOk && w.upsertOk == upsertOk ==>
                var e := EffectOf(old(db.Value()), opts.src, ev, now, w);
                outcome == e.outcome && db.Value() == AfterRun(old(db.Value()), e.steps)
    {
      if ev.objectId == "" || |ev.mergedFrom| == 0 { return Skipped; }
      if !storeOk { return Failed; }
      ghost var before, remap := db.Value(), Merge(opts.src.id, ev.mergedFrom, ev.objectId);
      var remapped := db.MergeOpenCTI(opts.src.id, ev.mergedFrom, ev.objectId);
      ghost var up := UpsertEffect(db.Value(), opts.src, ev, now, upsertOk);
      AfterOne(before, remap);
      if |up.steps| == 1 {
        AfterTwo(before, remap, up.steps[0]);
        AfterOne(After(before, remap), up.steps[0]);
        assert [remap] + up.steps == [remap, up.steps[0]];
      } else {
        assert [remap] + up.steps == [remap];
      }
      outcome := HandleUpsert(ev, now, upsertOk);
    }

    method Flush(saveOk: bool, clock: int) returns (ok: bool)
      requires db as object != state && this as object != state
      modifies state, this`pendingCount, this`lastFlush
      ensures Flushed(Waiting(), state.row, ok) == FlushResult(old(Waiting()), old(state.row), saveOk, clock)
    {
      if pendingCount == 0 { return true; }
      var done := state.SaveStreamState(pendingId, pendingAt, pendingCount, saveOk);
      if !done { return false; }
      pendingCount := 0;
      lastFlush := clock;
      return true;
    }

    method MaybeFlush(now: int, saveOk: bool, clock: int) returns (ok: bool)
      requires db as object != state && this as object != state
      modifies state, this`pendingCount, this`lastFlush
      ensures Flushed(Waiting(), state.row, ok) ==
              if FlushDue(old(Waiting()), opts, now) then FlushResult(old(Waiting()), old(state.row), saveOk, clock)
              else Flushed(old(Waiting()), old(state.row), true)
    {
      if pendingCount == 0 { return true; }
      if pendingCount < opts.every && now - lastFlush < opts.after { return true; }
      ok := Flush(saveOk, clock);
    }

    /** One event. The pending id moves on before the error is looked at, so a failed event
        is behind the next checkpoint. */
    method Handle(ev: Event, now: int, w: Weather, clock: int) returns (ok: bool, ghost outcome: Outcome)
      requires db as object != state && this as object != state && this as object != db
      modifies this, db, state
      ensures outcome == EffectOf(old(db.Value()), opts.src, ev, now, w).outcome
      ensures db.Value() == AfterRun(old(db.Value()), EffectOf(old(db.Value()), opts.src, ev, now, w).steps)
      ensures Flushed(Waiting(), state.row, ok) ==
              HandleResult(old(Waiting()), old(state.row), ev, outcome, opts, now, w.saveOk, clock)
    {
      var result: Outcome;
      match ev.kind {
        case DeleteEvent => result := HandleDelete(ev, w.storeOk);
        case MergeEvent => result := HandleMerge(ev, now, w.storeOk, w.upsertOk);
        case UpsertEvent => result := HandleUpsert(ev, now, w.upsertOk);
      }
      outcome := result;
      pendingId := ev.id;
      pendingCount := pendingCount + 1;
      if ev.time.Some? { pendingAt := ev.time; }
      if result == Failed { ok := false; return; }
      ok := MaybeFlush(now, w.saveOk, clock);
    }

    function LastEventId(): string
      reads this
    {
      pendingId
    }
  }
}
