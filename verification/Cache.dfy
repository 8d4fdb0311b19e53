/** The response cache and the request log (cmd/devserver/cache.go, the `record` half of proxy.go). */
module Cache {
  import opened Text

  /** Nanoseconds since the epoch. */
  type Time = int

  const MILLISECOND := 1_000_000

  /** `UnixMilli` and back: the stored time drops below the millisecond. */
  function Milli(t: Time): (m: Time)
    ensures m <= t < m + MILLISECOND
  {
    t / MILLISECOND * MILLISECOND
  }

  datatype Entry = Entry(status: int, body: string, etag: string, lastModified: string, fetchedAt: Time)

  predicate Success(status: int) { 200 <= status < 300 }

  type Rows = map<string, Entry>

  function Lookup(rows: Rows, key: string): Option<Entry> { if key in rows then Some(rows[key]) else None }

  function PutRow(rows: Rows, key: string, e: Entry): Rows { rows[key := e.(fetchedAt := Milli(e.fetchedAt))] }

  function TouchRow(rows: Rows, key: string, at: Time): Rows {
    if key in rows then rows[key := rows[key].(fetchedAt := Milli(at))] else rows
  }

  /** `Fresh`, at a given clock reading. */
  predicate Fresh(e: Entry, now: Time, ttl: Time) { now - e.fetchedAt < ttl }

  class ResponseCache {
    var rows: Rows

    constructor ()
      ensures rows == map[]
    {
      rows := map[];
    }

    method Get(key: string) returns (e: Option<Entry>)
      ensures e == Lookup(rows, key)
    {
      e := if key in rows then Some(rows[key]) else None;
    }

    /** Replaces the key's row, with its time cut to the millisecond; every other row stays as it was. */
    method Put(key: string, e: Entry)
      modifies this
      ensures rows == PutRow(old(rows), key, e)
      ensures rows.Keys == old(rows.Keys) + {key}
      ensures forall k :: k in old(rows) && k != key ==> rows[k] == old(rows[k])
      ensures rows[key].(fetchedAt := 0) == e.(fetchedAt := 0) && 0 <= e.fetchedAt - rows[key].fetchedAt < MILLISECOND
    {
      rows := rows[key := e.(fetchedAt := Milli(e.fetchedAt))];
    }

    /** Moves the time of an existing row and nothing else: no row appears, no status, body or validator changes. */
    method Touch(key: string, at: Time)
      modifies this
      ensures rows == TouchRow(old(rows), key, at)
      ensures rows.Keys == old(rows.Keys)
      ensures forall k :: k in rows ==> rows[k].(fetchedAt := 0) == old(rows[k]).(fetchedAt := 0)
      ensures forall k :: k in rows && k != key ==> rows[k] == old(rows[k])
      ensures key in rows ==> 0 <= at - rows[key].fetchedAt < MILLISECOND
    {
      if key in rows {
        var stored := rows[key];
        rows := rows[key := stored.(fetchedAt := Milli(at))];
      }
    }
  }

  // ---- Counters and the recent-activity list ----

  datatype Outcome = Hit | Miss | Revalidated | Stale | Failure

  datatype Stats = Stats(
    requests: nat, cacheHits: nat, upstreamCalls: nat, revalidated: nat, servedStale: nat, errors: nat)

  const NO_STATS := Stats(0, 0, 0, 0, 0, 0)

  /** What each way of answering adds to the counters. */
  function Count(s: Stats, outcome: Outcome): Stats {
    var t := s.(requests := s.requests + 1);
    match outcome
    case Hit => t.(cacheHits := t.cacheHits + 1)
    case Miss => t.(upstreamCalls := t.upstreamCalls + 1)
    case Revalidated => t.(upstreamCalls := t.upstreamCalls + 1, revalidated := t.revalidated + 1)
    case Stale => t.(servedStale := t.servedStale + 1)
    case Failure => t.(errors := t.errors + 1)
  }

  const RECENT_LIMIT := 50

  /** The newest entries first, at most RECENT_LIMIT of them. */
  function Latest<T>(log: seq<T>): (r: seq<T>)
    ensures |r| == if |log| < 50 then |log| else 50
    ensures forall i :: 0 <= i < |r| ==> r[i] == log[|log| - 1 - i]
  {
    seq(if |log| < RECENT_LIMIT then |log| else RECENT_LIMIT,
        i requires 0 <= i < if |log| < RECENT_LIMIT then |log| else RECENT_LIMIT => log[|log| - 1 - i])
  }

  function CountAll(log: seq<Outcome>): Stats {
    if log == [] then NO_STATS else Count(CountAll(log[..|log| - 1]), log[|log| - 1])
  }

  class Journal {
    var stats: Stats
    var recent: seq<Outcome>
    ghost var log: seq<Outcome>

    ghost predicate Valid()
      reads this
    {
      stats == CountAll(log) && recent == Latest(log)
    }

    constructor ()
      ensures Valid() && log == []
    {
      stats, recent, log := NO_STATS, [], [];
    }

    /** `record`: count the answer, put it in front and cut the list to its limit. */
    method Record(outcome: Outcome)
      requires Valid()
      modifies this
      ensures Valid() && log == old(log) + [outcome]
    {
      stats := Count(stats, outcome);
      recent := [outcome] + recent;
      if |recent| > RECENT_LIMIT {
        recent := recent[..RECENT_LIMIT];
      }
      log := log + [outcome];
      assert log[..|log| - 1] == old(log);
    }
  }

  /** Every request is counted once, under exactly one heading. */
  lemma {:induction false} EveryRequestCountedOnce(log: seq<Outcome>)
    ensures var s := CountAll(log);
            && s.requests == |log|
            && s.requests == s.cacheHits + s.upstreamCalls + s.servedStale + s.errors
            && s.cacheHits == multiset(log)[Hit]
            && s.upstreamCalls == multiset(log)[Miss] + multiset(log)[Revalidated]
            && s.revalidated == multiset(log)[Revalidated]
            && s.servedStale == multiset(log)[Stale]
            && s.errors == multiset(log)[Failure]
  {
    if log != [] {
      assert log == log[..|log| - 1] + [log[|log| - 1]];
      EveryRequestCountedOnce(log[..|log| - 1]);
    }
  }
}
