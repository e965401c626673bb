/** internal/syncconsumer/runner.go: the reconnect loop. Each run of the loop is a run of the
    protocol's transition system, so every theorem about that system holds of it. */
module Runner {
  import opened Rules
  import opened Tables
  import opened Consumer
  import opened Stream

  /** What happens while one event is handled. */
  datatype Delivery = Delivery(wx: Weather, now: int, clock: int)

  /** One connection: how many events arrive before it breaks, whether the flush afterwards
      succeeds, and whether it lived longer than a minute. */
  datatype Session = Session(deliveries: seq<Delivery>, saveOk: bool, clock: int, healthy: bool)

  /** The position the server chooses for the n-th session, given the id to resume from, the
      recover flag and the saved id. Asked the same thing again it may choose otherwise. */
  type Server = (nat, string, bool, string) -> nat

  ghost predicate Known(stream: seq<Event>, id: string) {
    exists k :: IdAt(stream, k, id)
  }

  /** Whenever the id it is asked about is in the stream, each answer is one it may give. */
  ghost predicate ServerResumes(server: Server, stream: seq<Event>) {
    forall n, startFrom, recover, saved ::
      (if recover then Known(stream, saved) else startFrom == "" || Known(stream, startFrom)) ==>
        MayAnswer(stream, startFrom, recover, saved, server(n, startFrom, recover, saved))
  }

  /** The objects hold what the abstract world says. */
  ghost predicate Mirrors(c: Consumer, w: World)
    reads c, c.db, c.state
  {
    w.proc.Some? && w.l1 == c.db.Value() && w.ckpt == c.state.row && w.proc.value.waiting == c.Waiting()
  }

  ghost predicate Separate(c: Consumer) {
    c.db as object != c.state && c as object != c.state && c as object != c.db
  }

  lemma ServerAnswerIsEnabled(server: Server, n: nat, w: World, stream: seq<Event>, src: Source)
    requires ServerResumes(server, stream) && Inv(w, stream) && w.proc.Some? && w.proc.value.phase.Idle?
    ensures Enabled(w, Connect(server(n, w.proc.value.startFrom, w.proc.value.recover, w.ckpt.lastEventId)), stream, src)
  {
    var p := w.proc.value;
    assert Position(w, stream, p.startFrom) && Position(w, stream, w.ckpt.lastEventId);
  }

  /** A reachable world that the objects mirror. */
  ghost predicate Tracks(c: Consumer, w: World, l0: L1, stream: seq<Event>)
    reads c, c.db, c.state
  {
    Separate(c) && ProperStream(stream) && Reachable(w, l0, stream, c.opts) && Inv(w, stream) && Mirrors(c, w)
  }

  /** The callback for one event. */
  method DeliverOne(c: Consumer, stream: seq<Event>, next: nat, d: Delivery, ghost l0: L1, ghost w: World)
    returns (ok: bool, ghost w': World)
    requires Tracks(c, w, l0, stream) && w.proc.value.phase == Connected(next) && next < |stream|
    modifies c, c.db, c.state
    ensures Tracks(c, w', l0, stream)
    ensures w'.proc.value.phase == if ok then Connected(next + 1) else Closing
    ensures w'.proc.value.startFrom == w.proc.value.startFrom && w'.proc.value.recover == w.proc.value.recover
  {
    ghost var m := Deliver(d.wx, d.now, d.clock);
    ReachableNext(w, m, l0, stream, c.opts);
    w' := Delivered(w, w.proc.value, next, stream[next], c.opts, d.wx, d.now, d.clock);
    ghost var outcome;
    ok, outcome := c.Handle(stream[next], d.now, d.wx, d.clock);
  }

  /** opencti.Listen with Handle as the callback: stops at the first error. */
  method Listen(c: Consumer, stream: seq<Event>, deliveries: seq<Delivery>, pos: nat, ghost l0: L1, ghost w: World)
    returns (ghost w': World)
    requires Tracks(c, w, l0, stream) && w.proc.value.phase == Connected(pos)
    modifies c, c.db, c.state
    ensures Tracks(c, w', l0, stream) && w'.proc.value.phase == Closing
    ensures w'.proc.value.startFrom == w.proc.value.startFrom && w'.proc.value.recover == w.proc.value.recover
  {
    w' := w;
    var next: nat, i, ok := pos, 0, true;
    while ok && i < |deliveries| && next < |stream|
      invariant Tracks(c, w', l0, stream)
      invariant w'.proc.value.phase == if ok then Connected(next) else Closing
      invariant w'.proc.value.startFrom == w.proc.value.startFrom && w'.proc.value.recover == w.proc.value.recover
      decreases |deliveries| - i
    {
      ok, w' := DeliverOne(c, stream, next, deliveries[i], l0, w');
      next, i := next + 1, i + 1;
    }
    if ok {
      ReachableNext(w', Disconnect, l0, stream, c.opts);
      w' := Next(w', Disconnect, stream, c.opts);
    }
  }

  /** Flush after the connection closed, then decide where to resume. */
  method Resume(c: Consumer, startFrom: string, recover: bool, saveOk: bool, clock: int,
                ghost l0: L1, ghost stream: seq<Event>, ghost w: World)
    returns (startFrom': string, recover': bool, ghost w': World)
    requires Tracks(c, w, l0, stream) && w.proc.value.phase == Closing
    requires w.proc.value.startFrom == startFrom && w.proc.value.recover == recover
    modifies c, c.state
    ensures Tracks(c, w', l0, stream) && w'.proc.value.phase == Idle
    ensures w'.proc.value.startFrom == startFrom' && w'.proc.value.recover == recover'
  {
    ReachableNext(w, Close(saveOk, clock), l0, stream, c.opts);
    w' := Closed(w, w.proc.value, saveOk, clock);
    var ok := c.Flush(saveOk, clock);
    startFrom', recover' := startFrom, recover;
    var id := c.LastEventId();
    if id != "" {
      startFrom' := id;
      recover' := false;
    }
  }

  /** Run: connect, listen, flush, resume from the last handled id, back off. */
  method Run(c: Consumer, stream: seq<Event>, server: Server, sessions: seq<Session>,
             startFrom0: string, recover0: bool, minBackoff: int, maxBackoff: int,
             ghost l0: L1, ghost w0: World)
    returns (backoff: int, ghost w: World)
    requires ServerResumes(server, stream) && Tracks(c, w0, l0, stream)
    requires w0.proc.value.phase == Idle && w0.proc.value.startFrom == startFrom0 && w0.proc.value.recover == recover0
    modifies c, c.db, c.state
    ensures Tracks(c, w, l0, stream) && w.proc.value.phase == Idle
    ensures var lo, hi := (if minBackoff <= 0 then 1_000_000_000 else minBackoff), (if maxBackoff <= 0 then 120_000_000_000 else maxBackoff);
            0 < backoff && (backoff <= hi || backoff == lo)
  {
    var lo := if minBackoff <= 0 then 1_000_000_000 else minBackoff;
    var hi := if maxBackoff <= 0 then 120_000_000_000 else maxBackoff;
    backoff := lo;
    w := w0;
    var startFrom, recover := startFrom0, recover0;
    for i := 0 to |sessions|
      invariant Tracks(c, w, l0, stream)
      invariant w.proc.value.phase == Idle && w.proc.value.startFrom == startFrom && w.proc.value.recover == recover
      invariant 0 < backoff && (backoff <= hi || backoff == lo)
    {
      var s := sessions[i];
      var pos := server(i, startFrom, recover, c.state.row.lastEventId);
      ServerAnswerIsEnabled(server, i, w, stream, c.opts.src);
      ReachableNext(w, Connect(pos), l0, stream, c.opts);
      w := ConnectedAt(w, w.proc.value, pos);
      w := Listen(c, stream, s.deliveries, pos, l0, w);
      startFrom, recover, w := Resume(c, startFrom, recover, s.saveOk, s.clock, l0, stream, w);
      if s.healthy { backoff := lo; }
      backoff := backoff * 2;
      if backoff > hi { backoff := hi; }
    }
  }
}
