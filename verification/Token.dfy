/** internal/store/token.go: the token cache and how old an answer can be. */
module Token {
  import opened Rules

  /** What a lookup says about a token: an unknown token, or its tenant's slug. */
  datatype Answer = Unknown | Tenant(slug: string)

  /** The result of Resolve; the database error is passed through. */
  datatype Outcome = Answered(answer: Answer) | DatabaseError

  datatype Entry = Entry(answer: Answer, fetched: int)

  type Cache = map<Digest, Entry>

  const FIVE_MINUTES: int := 300_000_000_000
  const ONE_HOUR: int := 3_600_000_000_000

  function OrDefault(d: int, default: int): int {
    if d <= 0 then default else d
  }

  /** `db` is what the database would say right now; None when it does not answer. */
  function Resolved(cache: Cache, ttl: int, maxStale: int, raw: string, now: int, db: Option<Answer>): (Outcome, Cache) {
    var h := Sha256(raw);
    if h in cache && now - cache[h].fetched < ttl then (Answered(cache[h].answer), cache)
    else if db.None? then
      if h in cache && now - cache[h].fetched < maxStale then (Answered(cache[h].answer), cache)
      else (DatabaseError, cache)
    else (Answered(db.value), cache[h := Entry(db.value, now)])
  }

  class TokenResolver {
    const ttl: int
    const maxStale: int
    var cache: Cache

    constructor (ttl: int, maxStale: int)
      ensures this.ttl == OrDefault(ttl, FIVE_MINUTES) && this.maxStale == OrDefault(maxStale, ONE_HOUR)
      ensures this.ttl > 0 && this.maxStale > 0 && cache == map[]
    {
      this.ttl, this.maxStale := OrDefault(ttl, FIVE_MINUTES), OrDefault(maxStale, ONE_HOUR);
      cache := map[];
    }

    method Resolve(raw: string, now: int, db: Option<Answer>) returns (r: Outcome)
      modifies this
      ensures (r, cache) == Resolved(old(cache), ttl, maxStale, raw, now, db)
    {
      var hash := Sha256(raw);
      var cached := hash in cache;
      if cached && now - cache[hash].fetched < ttl { return Answered(cache[hash].answer); }
      match db
      case None =>
        if cached && now - cache[hash].fetched < maxStale { return Answered(cache[hash].answer); }
        return DatabaseError;
      case Some(a) =>
        cache := cache[hash := Entry(a, now)];
        return Answered(a);
    }

    method Invalidate(raw: string)
      modifies this
      ensures cache == old(cache) - {Sha256(raw)}
    {
      cache := cache - {Sha256(raw)};
    }
  }

  // ----- runs of calls -----

  datatype Call = Resolve(raw: string, now: int, db: Option<Answer>) | Invalidate(raw: string)

  function AfterCall(cache: Cache, ttl: int, maxStale: int, c: Call): Cache {
    match c
    case Resolve(raw, now, db) => Resolved(cache, ttl, maxStale, raw, now, db).1
    case Invalidate(raw) => cache - {Sha256(raw)}
  }

  function CacheAfter(calls: seq<Call>, ttl: int, maxStale: int): Cache {
    if calls == [] then map[]
    else AfterCall(CacheAfter(calls[..|calls| - 1], ttl, maxStale), ttl, maxStale, calls[|calls| - 1])
  }

  /** What call i returns. */
  function OutcomeAt(calls: seq<Call>, i: nat, ttl: int, maxStale: int): Outcome
    requires i < |calls| && calls[i].Resolve?
  {
    Resolved(CacheAfter(calls[..i], ttl, maxStale), ttl, maxStale, calls[i].raw, calls[i].now, calls[i].db).0
  }

  ghost predicate ClockNeverRunsBack(calls: seq<Call>) {
    forall i, j :: 0 <= i < j < |calls| && calls[i].Resolve? && calls[j].Resolve? ==> calls[i].now <= calls[j].now
  }

  /** Call j asked the database about this token, got this answer at this time, and no later
      call before `until` invalidated the token. */
  ghost predicate AskedAt(calls: seq<Call>, j: nat, until: nat, raw: string, answer: Answer, time: int) {
    && j < until <= |calls| && calls[j] == Resolve(raw, time, Some(answer))
    && forall k :: j < k < until ==> calls[k] != Invalidate(raw)
  }

  /** Every cached answer was the database's answer, after the token's last invalidation. */
  lemma {:induction false} CacheProvenance(calls: seq<Call>, n: nat, ttl: int, maxStale: int, raw: string) returns (j: nat)
    requires n <= |calls| && Sha256(raw) in CacheAfter(calls[..n], ttl, maxStale)
    ensures var e := CacheAfter(calls[..n], ttl, maxStale)[Sha256(raw)];
            AskedAt(calls, j, n, raw, e.answer, e.fetched)
  {
    assert n > 0;
    assert calls[..n][..n - 1] == calls[..n - 1];
    var before, c := CacheAfter(calls[..n - 1], ttl, maxStale), calls[n - 1];
    if c.Resolve? && c.raw == raw && Resolved(before, ttl, maxStale, raw, c.now, c.db).1 != before {
      j := n - 1;
    } else {
      j := CacheProvenance(calls, n - 1, ttl, maxStale, raw);
    }
  }

  function Larger(a: int, b: int): int { if a < b then b else a }

  /** The staleness bound. Every answer was the database's own answer to an earlier (or this
      very) call, less than max(ttl, maxStale) ago, less than ttl ago when the database is
      reachable, and not from before the latest Invalidate of the token. A database error is
      passed on only when the database is unreachable. */
  lemma AnswersAreRecent(calls: seq<Call>, i: nat, ttl: int, maxStale: int) returns (j: nat)
    requires i < |calls| && calls[i].Resolve? && ttl > 0 && maxStale > 0
    ensures OutcomeAt(calls, i, ttl, maxStale) == DatabaseError ==> calls[i].db.None?
    ensures OutcomeAt(calls, i, ttl, maxStale).Answered? ==>
              && j < |calls| && calls[j].Resolve?
              && AskedAt(calls, j, i + 1, calls[i].raw, OutcomeAt(calls, i, ttl, maxStale).answer, calls[j].now)
              && calls[i].now - calls[j].now < Larger(ttl, maxStale)
              && (calls[i].db.Some? ==> calls[i].now - calls[j].now < ttl)
    ensures ClockNeverRunsBack(calls) && OutcomeAt(calls, i, ttl, maxStale).Answered? ==> calls[j].now <= calls[i].now
  {
    var cache, h := CacheAfter(calls[..i], ttl, maxStale), Sha256(calls[i].raw);
    if h in cache && calls[i].now - cache[h].fetched < (if calls[i].db.Some? then ttl else Larger(ttl, maxStale)) {
      j := CacheProvenance(calls, i, ttl, maxStale, calls[i].raw);
    } else {
      j := i;
    }
  }
}
