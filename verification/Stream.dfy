/** The checkpoint protocol: a server that may disconnect at any point, a consumer that saves
    its position in batches, reconnects, crashes and starts again. */
module Stream {
  import opened Rules
  import opened Tables
  import opened TableRuns
  import opened Replay
  import opened Consumer

  datatype Phase = Idle | Connected(next: nat) | Closing

  /** One process of sync-consumer: Run's variables and the consumer's. `handled` and
      `seenAtStart` are bookkeeping for the counting law. */
  datatype Proc = Proc(waiting: Pending, startFrom: string, recover: bool, phase: Phase, handled: nat, seenAtStart: nat)

  /** Event `index` of the stream was given to Handle, with this outcome. */
  datatype Entry = Entry(index: nat, outcome: Outcome)

  /** `base` is where the server placed a consumer that had no position to resume from;
      `log` and `steps` are the history of Handle calls and of table transactions. */
  datatype World = World(
    l1: L1, ckpt: Checkpoint, proc: Option<Proc>, base: nat, log: seq<Entry>, steps: seq<Step>)

  datatype Move =
    | Start(recover: bool, clock: int)
    | Connect(pos: nat)
    | Deliver(w: Weather, now: int, clock: int)
    | Disconnect
    | Close(saveOk: bool, clock: int)
    | Crash
    | Other(step: Step)

  function FirstWorld(l1: L1): World {
    World(l1, Checkpoint("", None, 0), None, 0, [], [])
  }

  ghost predicate IdAt(stream: seq<Event>, i: int, id: string) {
    0 <= i < |stream| && stream[i].id == id
  }

  /** Where the server may resume: right after a given id; no later than the saved position
      when asked to recover by time; anywhere when asked for the present. */
  ghost predicate MayAnswer(stream: seq<Event>, startFrom: string, recover: bool, saved: string, pos: nat) {
    if recover then exists k :: IdAt(stream, k, saved) && pos <= k + 1
    else if startFrom != "" then exists k :: IdAt(stream, k, startFrom) && pos == k + 1
    else pos <= |stream|
  }

  ghost predicate MayResume(w: World, p: Proc, stream: seq<Event>, pos: nat) {
    MayAnswer(stream, p.startFrom, p.recover, w.ckpt.lastEventId, pos)
  }

  ghost predicate Enabled(w: World, m: Move, stream: seq<Event>, src: Source) {
    match m
    case Start(recover, _) => w.proc.None? && (recover ==> w.ckpt.lastEventAt.Some?)
    case Connect(pos) => w.proc.Some? && w.proc.value.phase.Idle? && MayResume(w, w.proc.value, stream, pos)
    case Deliver(_, _, _) => w.proc.Some? && w.proc.value.phase.Connected? && w.proc.value.phase.next < |stream|
    case Disconnect => w.proc.Some? && !w.proc.value.phase.Closing?
    case Close(_, _) => w.proc.Some? && w.proc.value.phase.Closing?
    case Crash => w.proc.Some?
    case Other(step) => Owner(step) != src.id
  }

  function Started(w: World, recover: bool, clock: int): World {
    w.(proc := Some(Proc(Pending("", None, 0, clock), if recover then "" else w.ckpt.lastEventId, recover, Idle, 0, w.ckpt.eventsSeen)))
  }

  function ConnectedAt(w: World, p: Proc, pos: nat): World {
    w.(proc := Some(p.(phase := Connected(pos))), base := if p.startFrom == "" && !p.recover then pos else w.base)
  }

  function Delivered(w: World, p: Proc, n: nat, ev: Event, o: Options, wx: Weather, now: int, clock: int): World {
    var e := EffectOf(w.l1, o.src, ev, now, wx);
    var f := HandleResult(p.waiting, w.ckpt, ev, e.outcome, o, now, wx.saveOk, clock);
    World(AfterRun(w.l1, e.steps), f.checkpoint,
          Some(p.(waiting := f.pending, handled := p.handled + 1, phase := if f.ok then Connected(n + 1) else Closing)),
          w.base, w.log + [Entry(n, e.outcome)], w.steps + e.steps)
  }

  /** Flush whatever is pending, then resume from the last id handled in this process. */
  function Closed(w: World, p: Proc, saveOk: bool, clock: int): World {
    var f := FlushResult(p.waiting, w.ckpt, saveOk, clock);
    var id := f.pending.id;
    w.(ckpt := f.checkpoint,
       proc := Some(p.(waiting := f.pending, phase := Idle,
                       startFrom := if id != "" then id else p.startFrom,
                       recover := if id != "" then false else p.recover)))
  }

  function Next(w: World, m: Move, stream: seq<Event>, o: Options): World {
    match m
    case Start(recover, clock) => Started(w, recover, clock)
    case Connect(pos) => if w.proc.Some? then ConnectedAt(w, w.proc.value, pos) else w
    case Deliver(wx, now, clock) =>
      if w.proc.Some? && w.proc.value.phase.Connected? && w.proc.value.phase.next < |stream| then
        var n := w.proc.value.phase.next;
        Delivered(w, w.proc.value, n, stream[n], o, wx, now, clock)
      else w
    case Disconnect => if w.proc.Some? then w.(proc := Some(w.proc.value.(phase := Closing))) else w
    case Close(saveOk, clock) => if w.proc.Some? then Closed(w, w.proc.value, saveOk, clock) else w
    case Crash => w.(proc := None)
    case Other(step) => w.(l1 := After(w.l1, step), steps := w.steps + [step])
  }

  function WorldAfter(l0: L1, moves: seq<Move>, stream: seq<Event>, o: Options): World {
    if moves == [] then FirstWorld(l0)
    else Next(WorldAfter(l0, moves[..|moves| - 1], stream, o), moves[|moves| - 1], stream, o)
  }

  ghost predicate ValidRun(l0: L1, moves: seq<Move>, stream: seq<Event>, o: Options) {
    moves == [] ||
    (&& ValidRun(l0, moves[..|moves| - 1], stream, o)
     && Enabled(WorldAfter(l0, moves[..|moves| - 1], stream, o), moves[|moves| - 1], stream, o.src))
  }

  ghost predicate ProperStream(stream: seq<Event>) {
    && (forall ev :: ev in stream ==> ev.id != "")
    && (forall i, j :: 0 <= i < j < |stream| ==> stream[i].id != stream[j].id)
  }

  // ----- the invariant -----

  ghost predicate Given(w: World, i: int) {
    exists e :: e in w.log && e.index == i
  }

  /** Everything from the base up to n was given to Handle. */
  ghost predicate CoveredTo(w: World, n: int) {
    forall i :: w.base <= i < n ==> Given(w, i)
  }

  /** id is empty, or names an event up to which everything was given to Handle. */
  ghost predicate Position(w: World, stream: seq<Event>, id: string) {
    id != "" ==> exists k :: IdAt(stream, k, id) && CoveredTo(w, k + 1)
  }

  ghost predicate ProcInv(w: World, p: Proc, stream: seq<Event>) {
    && Position(w, stream, p.waiting.id) && Position(w, stream, p.startFrom)
    && (p.phase.Connected? ==> p.phase.next <= |stream| && CoveredTo(w, p.phase.next))
    && (p.phase.Idle? && p.waiting.id != "" ==> p.startFrom == p.waiting.id && !p.recover)
    && (w.ckpt.lastEventId != "" ==> p.startFrom != "" || p.recover || p.waiting.id != "")
    && (p.recover ==> w.ckpt.lastEventId != "")
    && (p.waiting.count > 0 || p.waiting.at.Some? ==> p.waiting.id != "")
    && w.ckpt.eventsSeen + p.waiting.count == p.seenAtStart + p.handled
  }

  ghost predicate Inv(w: World, stream: seq<Event>) {
    && Position(w, stream, w.ckpt.lastEventId)
    && (w.ckpt.lastEventAt.Some? ==> w.ckpt.lastEventId != "")
    && (w.proc.Some? ==> ProcInv(w, w.proc.value, stream))
  }

  lemma PositionFrame(w: World, w': World, stream: seq<Event>, id: string)
    requires Position(w, stream, id) && w'.base == w.base
    requires forall i :: Given(w, i) ==> Given(w', i)
    ensures Position(w', stream, id)
  {
    if id != "" {
      var k :| IdAt(stream, k, id) && CoveredTo(w, k + 1);
      assert CoveredTo(w', k + 1);
    }
  }

  lemma ConnectKeepsInv(w: World, stream: seq<Event>, pos: nat)
    requires Inv(w, stream) && w.proc.Some? && w.proc.value.phase.Idle?
    requires MayResume(w, w.proc.value, stream, pos) && ProperStream(stream)
    ensures Inv(ConnectedAt(w, w.proc.value, pos), stream)
  {
    var p, w' := w.proc.value, ConnectedAt(w, w.proc.value, pos);
    assert forall i :: Given(w, i) ==> Given(w', i);
    if p.startFrom == "" && !p.recover {
      assert w.ckpt.lastEventId == "" && p.waiting.id == "";
    } else {
      PositionFrame(w, w', stream, w.ckpt.lastEventId);
      PositionFrame(w, w', stream, p.waiting.id);
      PositionFrame(w, w', stream, p.startFrom);
      var id := if p.recover then w.ckpt.lastEventId else p.startFrom;
      var k :| IdAt(stream, k, id) && pos <= k + 1;
      assert id != "" by { assert stream[k] in stream; }
      var k' :| IdAt(stream, k', id) && CoveredTo(w, k' + 1);
      assert k == k';
      assert CoveredTo(w', pos);
    }
  }

  lemma DeliverKeepsInv(w: World, stream: seq<Event>, o: Options, wx: Weather, now: int, clock: int)
    requires Inv(w, stream) && ProperStream(stream)
    requires w.proc.Some? && w.proc.value.phase.Connected? && w.proc.value.phase.next < |stream|
    ensures var n := w.proc.value.phase.next;
            Inv(Delivered(w, w.proc.value, n, stream[n], o, wx, now, clock), stream)
  {
    var p := w.proc.value;
    var n := p.phase.next;
    var ev := stream[n];
    var w' := Delivered(w, p, n, ev, o, wx, now, clock);
    assert ev in stream;
    forall i | Given(w, i) ensures Given(w', i) {
      var e :| e in w.log && e.index == i;
      assert e in w'.log;
    }
    assert Given(w', n) by { assert w'.log[|w.log|] in w'.log; }
    assert CoveredTo(w', n + 1);
    assert IdAt(stream, n, ev.id);
    PositionFrame(w, w', stream, w.ckpt.lastEventId);
    PositionFrame(w, w', stream, p.startFrom);
    assert Position(w', stream, ev.id);
  }

  lemma CloseKeepsInv(w: World, stream: seq<Event>, saveOk: bool, clock: int)
    requires Inv(w, stream) && w.proc.Some?
    ensures Inv(Closed(w, w.proc.value, saveOk, clock), stream)
  {
    var p, w' := w.proc.value, Closed(w, w.proc.value, saveOk, clock);
    assert forall i :: Given(w, i) ==> Given(w', i);
    PositionFrame(w, w', stream, w.ckpt.lastEventId);
    PositionFrame(w, w', stream, p.waiting.id);
    PositionFrame(w, w', stream, p.startFrom);
  }

  lemma QuietMoveKeepsInv(w: World, w': World, stream: seq<Event>)
    requires Inv(w, stream)
    requires w'.ckpt == w.ckpt && w'.base == w.base && w'.log == w.log
    requires w'.proc.Some? ==> w.proc.Some? && (w'.proc == w.proc || w'.proc == Some(w.proc.value.(phase := Closing)))
    ensures Inv(w', stream)
  {
    assert forall i :: Given(w, i) ==> Given(w', i);
    PositionFrame(w, w', stream, w.ckpt.lastEventId);
    if w.proc.Some? {
      PositionFrame(w, w', stream, w.proc.value.waiting.id);
      PositionFrame(w, w', stream, w.proc.value.startFrom);
      assert w.proc.value.phase.Connected? ==> (CoveredTo(w, w.proc.value.phase.next) ==> CoveredTo(w', w.proc.value.phase.next));
    }
  }

  lemma StartKeepsInv(w: World, stream: seq<Event>, recover: bool, clock: int)
    requires Inv(w, stream) && (recover ==> w.ckpt.lastEventAt.Some?)
    ensures Inv(Started(w, recover, clock), stream)
  {
    var w' := Started(w, recover, clock);
    assert forall i :: Given(w, i) ==> Given(w', i);
    PositionFrame(w, w', stream, w.ckpt.lastEventId);
  }

  lemma MoveKeepsInv(w: World, m: Move, stream: seq<Event>, o: Options)
    requires Inv(w, stream) && ProperStream(stream) && Enabled(w, m, stream, o.src)
    ensures Inv(Next(w, m, stream, o), stream)
  {
    match m
    case Start(recover, clock) => StartKeepsInv(w, stream, recover, clock);
    case Connect(pos) => ConnectKeepsInv(w, stream, pos);
    case Deliver(wx, now, clock) => DeliverKeepsInv(w, stream, o, wx, now, clock);
    case Disconnect => QuietMoveKeepsInv(w, Next(w, m, stream, o), stream);
    case Close(saveOk, clock) => CloseKeepsInv(w, stream, saveOk, clock);
    case Crash => QuietMoveKeepsInv(w, Next(w, m, stream, o), stream);
    case Other(_) => QuietMoveKeepsInv(w, Next(w, m, stream, o), stream);
  }

  lemma {:induction false} RunKeepsInv(l0: L1, moves: seq<Move>, stream: seq<Event>, o: Options)
    requires ProperStream(stream) && ValidRun(l0, moves, stream, o)
    ensures Inv(WorldAfter(l0, moves, stream, o), stream)
  {
    if moves != [] {
      RunKeepsInv(l0, moves[..|moves| - 1], stream, o);
      MoveKeepsInv(WorldAfter(l0, moves[..|moves| - 1], stream, o), moves[|moves| - 1], stream, o);
    }
  }

  /** Some run leads to this world. */
  ghost predicate Reachable(w: World, l0: L1, stream: seq<Event>, o: Options) {
    exists moves :: ValidRun(l0, moves, stream, o) && WorldAfter(l0, moves, stream, o) == w
  }

  lemma OneMoreMove(l0: L1, moves: seq<Move>, m: Move, stream: seq<Event>, o: Options)
    requires ValidRun(l0, moves, stream, o) && Enabled(WorldAfter(l0, moves, stream, o), m, stream, o.src)
    ensures ValidRun(l0, moves + [m], stream, o)
    ensures WorldAfter(l0, moves + [m], stream, o) == Next(WorldAfter(l0, moves, stream, o), m, stream, o)
  {
    assert (moves + [m])[..|moves|] == moves;
  }

  lemma ReachableNext(w: World, m: Move, l0: L1, stream: seq<Event>, o: Options)
    requires ProperStream(stream) && Reachable(w, l0, stream, o) && Enabled(w, m, stream, o.src)
    ensures Reachable(Next(w, m, stream, o), l0, stream, o) && Inv(Next(w, m, stream, o), stream)
  {
    var moves :| ValidRun(l0, moves, stream, o) && WorldAfter(l0, moves, stream, o) == w;
    OneMoreMove(l0, moves, m, stream, o);
    RunKeepsInv(l0, moves + [m], stream, o);
  }

  // ----- the theorems -----

  /** In every reachable state, with disconnects and crashes anywhere, the saved checkpoint
      never passes an event that was not given to Handle. Each of those events has an entry
      that says how Handle left it: applied, skipped, stale or failed. */
  lemma CheckpointNeverSkips(l0: L1, moves: seq<Move>, stream: seq<Event>, o: Options, k: nat)
    requires ProperStream(stream) && ValidRun(l0, moves, stream, o)
    requires IdAt(stream, k, WorldAfter(l0, moves, stream, o).ckpt.lastEventId)
    ensures forall i :: WorldAfter(l0, moves, stream, o).base <= i <= k ==> Given(WorldAfter(l0, moves, stream, o), i)
  {
    var w := WorldAfter(l0, moves, stream, o);
    RunKeepsInv(l0, moves, stream, o);
    assert stream[k] in stream;
    var k' :| IdAt(stream, k', w.ckpt.lastEventId) && CoveredTo(w, k' + 1);
    assert k == k';
  }

  /** Within one process, what was saved plus what is pending is the number of Handle calls. */
  lemma {:induction false} CountsAddUp(l0: L1, moves: seq<Move>, stream: seq<Event>, o: Options)
    requires ProperStream(stream) && ValidRun(l0, moves, stream, o)
    ensures var w := WorldAfter(l0, moves, stream, o);
            w.proc.Some? ==> (w.ckpt.eventsSeen - w.proc.value.seenAtStart) + w.proc.value.waiting.count == w.proc.value.handled
  {
    RunKeepsInv(l0, moves, stream, o);
  }

  /** Once there is a checkpoint, the base never moves again and the checkpoint stays. */
  lemma BaseIsFixedByCheckpoint(w: World, m: Move, stream: seq<Event>, o: Options)
    requires Inv(w, stream) && ProperStream(stream) && Enabled(w, m, stream, o.src)
    requires w.ckpt.lastEventId != ""
    ensures Next(w, m, stream, o).base == w.base && Next(w, m, stream, o).ckpt.lastEventId != ""
  {
    if m.Deliver? { assert stream[w.proc.value.phase.next] in stream; }
  }

  // ----- from the stream to the tables -----

  /** A stream that only upserts, and whose records are consistent. */
  ghost predicate UpsertStream(stream: seq<Event>, src: Source) {
    && (forall ev :: ev in stream ==> ev.kind == UpsertEvent)
    && Consistent(Records(stream), src)
  }

  ghost function Records(stream: seq<Event>): set<Indicator> {
    set ev | ev in stream && ev.record.Some? :: ev.record.value
  }

  /** The stream index that the next delivery gets: the server's last choice of position and the
      deliveries since. */
  function NextIndex(moves: seq<Move>): nat {
    if moves == [] then 0
    else
      var front, m := moves[..|moves| - 1], moves[|moves| - 1];
      match m
      case Connect(pos) => pos
      case Deliver(_, _, _) => NextIndex(front) + 1
      case _ => NextIndex(front)
  }

  /** Move j delivers event i while the database takes upserts. */
  predicate DeliversWell(moves: seq<Move>, j: nat, i: nat) {
    j < |moves| && moves[j].Deliver? && moves[j].w.upsertOk && NextIndex(moves[..j]) == i
  }

  predicate CarriesRecord(moves: seq<Move>, j: nat, stream: seq<Event>, rec: Indicator) {
    && j < |moves| && DeliversWell(moves, j, NextIndex(moves[..j])) && NextIndex(moves[..j]) < |stream|
    && stream[NextIndex(moves[..j])].record == Some(rec)
  }

  /** Some delivery of an event with this record met a database that takes upserts. */
  ghost predicate GotThrough(moves: seq<Move>, stream: seq<Event>, rec: Indicator) {
    exists j: nat :: j < |moves| && CarriesRecord(moves, j, stream, rec)
  }

  ghost predicate HistoryInv(w: World, l0: L1, moves: seq<Move>, stream: seq<Event>, src: Source) {
    && w.l1 == AfterRun(l0, w.steps)
    && OnlyEvents(w.steps, src) && EventSet(w.steps, src) <= Records(stream)
    && (w.proc.Some? && w.proc.value.phase.Connected? ==> w.proc.value.phase.next == NextIndex(moves))
    && forall rec :: rec in EventSet(w.steps, src) <==> GotThrough(moves, stream, rec)
  }

  lemma OneMoreMoveThrough(front: seq<Move>, m: Move, stream: seq<Event>, rec: Indicator)
    ensures var moves := front + [m]; GotThrough(moves, stream, rec) <==> GotThrough(front, stream, rec) || CarriesRecord(moves, |front|, stream, rec)
  {
    var moves := front + [m];
    assert forall j :: 0 <= j < |front| ==> moves[..j] == front[..j] && moves[j] == front[j];
    if j: nat :| j < |front| && CarriesRecord(front, j, stream, rec) { assert CarriesRecord(moves, j, stream, rec); }
    if j: nat :| j < |moves| && CarriesRecord(moves, j, stream, rec) {
      if j < |front| { assert CarriesRecord(front, j, stream, rec); }
    }
  }

  lemma AfterRunAppend(l0: L1, steps: seq<Step>, s: Step)
    ensures AfterRun(l0, steps + [s]) == After(AfterRun(l0, steps), s)
  {
    assert (steps + [s])[..|steps|] == steps;
  }

  /** What handling one upsert event does: with a record it fails exactly when the database does
      not take upserts, and otherwise is one transaction. */
  lemma UpsertEventEffect(db: L1, src: Source, ev: Event, now: int, wx: Weather)
    requires ev.kind == UpsertEvent && (ev.record.Some? ==> Writable(ev.record.value, src))
    ensures var e := EffectOf(db, src, ev, now, wx);
            && (e.outcome == Failed <==> ev.record.Some? && !wx.upsertOk)
            && e.steps == if ev.record.Some? && wx.upsertOk then [Upsert(src, ev.record.value, now)] else []
  {
  }

  /** A move that leaves the steps alone and carries no record. */
  lemma HistoryUnchanged(w: World, w': World, l0: L1, front: seq<Move>, m: Move, stream: seq<Event>, src: Source)
    requires HistoryInv(w, l0, front, stream, src) && w'.steps == w.steps && w'.l1 == w.l1
    requires w'.proc.Some? && w'.proc.value.phase.Connected? ==> w'.proc.value.phase.next == NextIndex(front + [m])
    requires forall rec :: !CarriesRecord(front + [m], |front|, stream, rec)
    ensures HistoryInv(w', l0, front + [m], stream, src)
  {
    forall rec ensures GotThrough(front + [m], stream, rec) <==> GotThrough(front, stream, rec) { OneMoreMoveThrough(front, m, stream, rec); }
  }

  /** A delivery that carries a record into the tables. */
  lemma HistoryExtended(w: World, w': World, l0: L1, front: seq<Move>, m: Move, stream: seq<Event>, src: Source, s: Step)
    requires HistoryInv(w, l0, front, stream, src) && w'.steps == w.steps + [s] && w'.l1 == After(w.l1, s)
    requires w'.proc.Some? && w'.proc.value.phase.Connected? ==> w'.proc.value.phase.next == NextIndex(front + [m])
    requires IsEvent(s, src) && s.rec in Records(stream)
    requires forall rec :: CarriesRecord(front + [m], |front|, stream, rec) <==> rec == s.rec
    ensures HistoryInv(w', l0, front + [m], stream, src)
  {
    AfterRunAppend(l0, w.steps, s);
    EventSetAppend(w.steps, s, src);
    forall rec ensures rec in EventSet(w'.steps, src) <==> GotThrough(front + [m], stream, rec) { OneMoreMoveThrough(front, m, stream, rec); }
  }

  /** One delivery: its record joins the steps exactly when the database takes it. */
  lemma DeliverKeepsHistory(w: World, l0: L1, front: seq<Move>, stream: seq<Event>, o: Options, wx: Weather, now: int, clock: int)
    requires HistoryInv(w, l0, front, stream, o.src) && UpsertStream(stream, o.src)
    requires w.proc.Some? && w.proc.value.phase.Connected? && w.proc.value.phase.next < |stream|
    ensures var n := w.proc.value.phase.next;
            HistoryInv(Delivered(w, w.proc.value, n, stream[n], o, wx, now, clock), l0, front + [Deliver(wx, now, clock)], stream, o.src)
  {
    var n, m := w.proc.value.phase.next, Deliver(wx, now, clock);
    var ev, e := stream[n], EffectOf(w.l1, o.src, stream[n], now, wx);
    var after := Delivered(w, w.proc.value, n, ev, o, wx, now, clock);
    assert ev in stream;
    assert (front + [m])[..|front|] == front;
    UpsertEventEffect(w.l1, o.src, ev, now, wx);
    if ev.record.Some? && wx.upsertOk {
      assert ev.record.value in Records(stream);
      AfterOne(w.l1, e.steps[0]);
      HistoryExtended(w, after, l0, front, m, stream, o.src, e.steps[0]);
    } else {
      assert w.steps + [] == w.steps;
      HistoryUnchanged(w, after, l0, front, m, stream, o.src);
    }
  }

  lemma MoveKeepsHistory(w: World, l0: L1, front: seq<Move>, m: Move, stream: seq<Event>, o: Options)
    requires HistoryInv(w, l0, front, stream, o.src) && UpsertStream(stream, o.src) && Enabled(w, m, stream, o.src)
    ensures HistoryInv(Next(w, m, stream, o), l0, front + [m], stream, o.src)
  {
    assert (front + [m])[..|front|] == front;
    match m
    case Deliver(wx, now, clock) => DeliverKeepsHistory(w, l0, front, stream, o, wx, now, clock);
    case Other(step) =>
      AfterRunAppend(l0, w.steps, step);
      EventSetAppend(w.steps, step, o.src);
      forall rec ensures GotThrough(front + [m], stream, rec) <==> GotThrough(front, stream, rec) { OneMoreMoveThrough(front, m, stream, rec); }
    case _ =>
      HistoryUnchanged(w, Next(w, m, stream, o), l0, front, m, stream, o.src);
  }

  lemma {:induction false} RunKeepsHistory(l0: L1, moves: seq<Move>, stream: seq<Event>, o: Options)
    requires UpsertStream(stream, o.src) && ValidRun(l0, moves, stream, o)
    ensures HistoryInv(WorldAfter(l0, moves, stream, o), l0, moves, stream, o.src)
  {
    if moves != [] {
      var front, m := moves[..|moves| - 1], moves[|moves| - 1];
      RunKeepsHistory(l0, front, stream, o);
      MoveKeepsHistory(WorldAfter(l0, front, stream, o), l0, front, m, stream, o);
      assert front + [m] == moves;
    }
  }

  /** What reached the tables, exactly: a record is among the transactions if and only if some
      delivery of an event with that record met a database that takes upserts. Deliveries that
      were repeated after a crash count, and so do deliveries past the checkpoint. */
  lemma AppliedExactlyWhatGotThrough(l0: L1, moves: seq<Move>, stream: seq<Event>, o: Options, rec: Indicator)
    requires UpsertStream(stream, o.src) && ValidRun(l0, moves, stream, o)
    ensures rec in EventSet(WorldAfter(l0, moves, stream, o).steps, o.src) <==> GotThrough(moves, stream, rec)
  {
    RunKeepsHistory(l0, moves, stream, o);
  }

  /** The newest record for a rule among those that got through. */
  ghost predicate NewestThrough(moves: seq<Move>, stream: seq<Event>, r: Rule, newest: Indicator) {
    && GotThrough(moves, stream, newest) && r in newest.rules
    && forall rec :: GotThrough(moves, stream, rec) && r in rec.rules ==> !Newer(rec, newest)
  }

  /** The rows, exactly: the source has a row for a rule if and only if some record naming the
      rule got through, and then the row shows the newest such record. */
  lemma RowsShowWhatGotThrough(l0: L1, moves: seq<Move>, stream: seq<Event>, o: Options, r: Rule)
    requires UpsertStream(stream, o.src) && ValidRun(l0, moves, stream, o) && Untouched(l0, o.src)
    ensures var w := WorldAfter(l0, moves, stream, o);
            && ((r, o.src.id) in w.l1.sources <==> exists rec :: GotThrough(moves, stream, rec) && r in rec.rules)
            && ((r, o.src.id) in w.l1.sources ==>
                  exists newest :: NewestThrough(moves, stream, r, newest) && RowMatches(w.l1, o.src, r, Some(newest)))
  {
    var w := WorldAfter(l0, moves, stream, o);
    RunKeepsHistory(l0, moves, stream, o);
    ConsistentSubset(EventSet(w.steps, o.src), Records(stream), o.src);
    RowsShowTheirNewestEvent(l0, w.steps, o.src);
    WinnerIsGreatest(w.steps, o.src, r);
    assert RowMatches(w.l1, o.src, r, Winner(w.steps, o.src, r));
    if (r, o.src.id) in w.l1.sources {
      var newest := Winner(w.steps, o.src, r).value;
      assert NewestThrough(moves, stream, r, newest);
    }
  }

  /** The row of r shows this record or a newer one of the same indicator. */
  ghost predicate ShowsAtLeast(db: L1, src: Source, r: Rule, rec: Indicator) {
    exists shown :: RowMatches(db, src, r, Some(shown)) && shown.stixId == rec.stixId && !Newer(rec, shown)
  }

  lemma ShownMeansThrough(db: L1, moves: seq<Move>, stream: seq<Event>, src: Source, r: Rule, e: Indicator, newest: Indicator)
    requires NewestThrough(moves, stream, r, newest) && RowMatches(db, src, r, Some(newest)) && ShowsAtLeast(db, src, r, e)
    ensures !Newer(e, newest)
  {
    var shown :| RowMatches(db, src, r, Some(shown)) && shown.stixId == e.stixId && !Newer(e, shown);
    assert newest.modified == shown.modified;
  }

  lemma ThroughMeansShown(db: L1, moves: seq<Move>, stream: seq<Event>, src: Source, r: Rule, e: Indicator, rec: Indicator, newest: Indicator)
    requires NewestThrough(moves, stream, r, newest) && RowMatches(db, src, r, Some(newest))
    requires GotThrough(moves, stream, rec) && r in rec.rules && !Newer(e, rec) && r in e.rules
    requires rec.modified.Some? && Compatible(e, newest)
    ensures ShowsAtLeast(db, src, r, e)
  {
    assert !Newer(rec, newest);
  }

  /** When one event of the stream is visible in the tables: the row of a rule it names shows
      it or something newer if and only if a delivery of it, or of a record for that rule that
      is not older, met a database that takes upserts. The condition is on the moves alone. */
  lemma EventIsInTheTablesIff(l0: L1, moves: seq<Move>, stream: seq<Event>, o: Options, i: nat, r: Rule)
    requires UpsertStream(stream, o.src) && ValidRun(l0, moves, stream, o) && Untouched(l0, o.src)
    requires i < |stream| && stream[i].record.Some? && r in stream[i].record.value.rules
    ensures var w, e := WorldAfter(l0, moves, stream, o), stream[i].record.value;
            ShowsAtLeast(w.l1, o.src, r, e) <==> exists rec :: GotThrough(moves, stream, rec) && r in rec.rules && !Newer(e, rec)
  {
    var w, e := WorldAfter(l0, moves, stream, o), stream[i].record.value;
    assert stream[i] in stream && e in Records(stream);
    RowsShowWhatGotThrough(l0, moves, stream, o, r);
    RunKeepsHistory(l0, moves, stream, o);
    if ShowsAtLeast(w.l1, o.src, r, e) {
      var newest :| NewestThrough(moves, stream, r, newest) && RowMatches(w.l1, o.src, r, Some(newest));
      ShownMeansThrough(w.l1, moves, stream, o.src, r, e, newest);
    }
    if rec :| GotThrough(moves, stream, rec) && r in rec.rules && !Newer(e, rec) {
      var newest :| NewestThrough(moves, stream, r, newest) && RowMatches(w.l1, o.src, r, Some(newest));
      assert newest in Records(stream) && rec in Records(stream);
      ThroughMeansShown(w.l1, moves, stream, o.src, r, e, rec, newest);
    }
  }

  /** End to end, for a stream of upserts with consistent records: an event at or before the
      checkpoint was given to Handle, and if the database took upserts during some delivery of
      it, it is in the tables, whatever disconnects, crashes, repeats and other sources did. */
  lemma CheckpointedEventsAreInTheTables(l0: L1, moves: seq<Move>, stream: seq<Event>, o: Options, k: nat, i: nat, r: Rule)
    requires ProperStream(stream) && UpsertStream(stream, o.src) && ValidRun(l0, moves, stream, o) && Untouched(l0, o.src)
    requires IdAt(stream, k, WorldAfter(l0, moves, stream, o).ckpt.lastEventId)
    requires WorldAfter(l0, moves, stream, o).base <= i <= k
    requires stream[i].record.Some? && r in stream[i].record.value.rules
    ensures var w := WorldAfter(l0, moves, stream, o);
            && Given(w, i)
            && ((exists j :: DeliversWell(moves, j, i)) ==> ShowsAtLeast(w.l1, o.src, r, stream[i].record.value))
  {
    var w, rec := WorldAfter(l0, moves, stream, o), stream[i].record.value;
    CheckpointNeverSkips(l0, moves, stream, o, k);
    EventIsInTheTablesIff(l0, moves, stream, o, i, r);
    if j: nat :| DeliversWell(moves, j, i) {
      assert CarriesRecord(moves, j, stream, rec);
      assert GotThrough(moves, stream, rec);
    }
  }

  /** The exception is real: when the database fails while an event is handled, the next
      checkpoint still moves past it, and nothing of it is in the tables. */
  lemma FailedEventIsPassedOver(l0: L1, stream: seq<Event>, o: Options, now: int) returns (moves: seq<Move>)
    requires ProperStream(stream) && stream != [] && stream[0].kind == UpsertEvent && stream[0].record.Some?
    ensures var w := WorldAfter(l0, moves, stream, o);
            ValidRun(l0, moves, stream, o) && w.ckpt.lastEventId == stream[0].id && w.log == [Entry(0, Failed)] && w.l1 == l0
  {
    var wx := Weather(false, false, true);
    assert stream[0] in stream;
    moves := [];
    OneMoreMove(l0, moves, Start(false, 0), stream, o);
    moves := moves + [Start(false, 0)];
    OneMoreMove(l0, moves, Connect(0), stream, o);
    moves := moves + [Connect(0)];
    var w := WorldAfter(l0, moves, stream, o);
    assert EffectOf(w.l1, o.src, stream[0], now, wx) == Effect([], Failed);
    OneMoreMove(l0, moves, Deliver(wx, now, 0), stream, o);
    moves := moves + [Deliver(wx, now, 0)];
    OneMoreMove(l0, moves, Close(true, 0), stream, o);
    moves := moves + [Close(true, 0)];
  }
}
