/**
 * The proxy's own code (cmd/devserver/proxy.go), one request at a time: what it does to the cache and the journal is
 * what the steps of Proxy say.
 */
module ProxyServer {
  import opened Cache
  import opened Proxy
  import opened ProxyMeaning
  import opened Text

  /**
   * How one upstream call goes: it fails, or the origin answers at `heldAt`, with a 304 if it may and is willing, and
   * the answer is in at `now`.
   */
  datatype Call = Unreachable | Reached(sent: Time, heldAt: Time, now: Time, willing: bool, written: bool)

  function PhaseOf(origin: Origin, key: string, stored: Option<Entry>, client: Headers, call: Call): Phase
    requires call.Reached?
  {
    var notModified := call.willing && MayAnswer304(origin, key, call.heldAt, stored, client);
    Received(stored, call.sent, call.heldAt, notModified, call.now)
  }

  /** The answer as it comes in, the origin's choice of a 304 spelled out. */
  function AnswerTo(origin: Origin, key: string, stored: Option<Entry>, client: Headers, call: Call): (p: Phase)
    requires call.Reached?
    ensures p.Received?
  {
    var notModified := call.willing && Unmodified(origin, key, call.heldAt, stored, client);
    Received(stored, call.sent, call.heldAt, notModified, call.now)
  }

  lemma AnswerIsPhase(origin: Origin, key: string, stored: Option<Entry>, client: Headers, call: Call)
    requires call.Reached?
    ensures PhaseOf(origin, key, stored, client, call) == AnswerTo(origin, key, stored, client, call)
  {
    UnmodifiedExactly(origin, key, call.heldAt, stored, client);
  }

  class Server {
    const ttl: Time
    const cache: ResponseCache
    const journal: Journal

    constructor (ttl: Time)
      ensures this.ttl == ttl && fresh(cache) && fresh(journal)
      ensures cache.rows == map[] && journal.Valid() && journal.log == []
    {
      this.ttl := ttl;
      cache := new ResponseCache();
      journal := new Journal();
    }

    /** The conditional headers of the upstream request: the client's, under the stored row's. */
    method Validators(stored: Option<Entry>, client: Headers) returns (sent: Headers)
      ensures sent == Headers(SentTag(stored, client), SentDate(stored, client))
      ensures sent.ifNoneMatch == if stored.Some? && stored.value.etag != "" then stored.value.etag
                else client.ifNoneMatch
      ensures client.ifModifiedSince != "" || stored.None? || stored.value.etag != "" ==>
                sent.ifModifiedSince == client.ifModifiedSince
      ensures client.ifModifiedSince == "" && stored.Some? && stored.value.etag == "" ==>
                sent.ifModifiedSince == stored.value.lastModified
      ensures stored.Some? && !ClientDecides(stored, client) ==>
                if stored.value.etag != "" then sent.ifNoneMatch == stored.value.etag
                else sent == Headers("", stored.value.lastModified)
    {
      sent := client;
      if stored.Some? {
        if stored.value.etag != "" {
          sent := sent.(ifNoneMatch := stored.value.etag);
        }
        if stored.value.lastModified != "" && client.ifModifiedSince == "" && stored.value.etag == "" {
          sent := sent.(ifModifiedSince := stored.value.lastModified);
        }
      }
    }

    /** `fetch`: the result and the new rows are those of the step that lands. */
    method Fetch(origin: Origin, key: string, client: Headers, call: Call) returns (result: Result)
      modifies cache
      ensures call.Unreachable? ==> result == Failed && cache.rows == old(cache.rows)
      ensures call.Reached? ==>
                var p := PhaseOf(origin, key, Lookup(old(cache.rows), key), client, call);
                result == FetchResult(origin, key, p)
                    && cache.rows == RowsAfter(old(cache.rows), key, p, result, call.written)
      ensures call.Reached? ==>
                && result.Fetched?
                && Landed(origin, key, AnswerTo(origin, key, Lookup(old(cache.rows), key), client, call), call.written,
                          old(cache.rows), cache.rows, result.entry, result.outcome)
    {
      if call.Unreachable? {
        return Failed;
      }
      var stored := cache.Get(key);
      AnswerIsPhase(origin, key, stored, client, call);
      LandsAsSaid(origin, key, PhaseOf(origin, key, stored, client, call), call.written, cache.rows);
      var sent := Validators(stored, client);
      var reply := origin.reply(key, call.heldAt);
      var notModified :=
        call.willing && MayBeNotModified(origin, key, call.heldAt, sent.ifNoneMatch, sent.ifModifiedSince);
      var status := if notModified then NOT_MODIFIED else reply.status;
      if status == NOT_MODIFIED && stored.Some? {
        if call.written {
          cache.Touch(key, call.now);
        }
        return Fetched(stored.value.(fetchedAt := call.now), Revalidated);
      }
      var entry := Entry(status, if notModified then "" else reply.body, reply.etag, reply.lastModified, call.now);
      if Success(status) && call.written {
        cache.Put(key, entry);
      }
      result := Fetched(entry, Miss);
    }

    /**
     * `ServeHTTP` of a cacheable request with no other request in between: a fresh row is a hit and nothing is fetched;
     * otherwise the fetch answers, and if it fails a stored row does. Every request is recorded exactly once.
     */
    method ServeHTTP(origin: Origin, key: string, client: Headers, now: Time, call: Call)
      returns (served: Option<Entry>, outcome: Outcome)
      requires journal.Valid()
      modifies cache, journal
      ensures journal.Valid() && journal.log == old(journal.log) + [outcome]
      ensures served.None? <==> outcome.Failure?
      ensures var stored := Lookup(old(cache.rows), key);
              if stored.Some? && Fresh(stored.value, now, ttl) then
                outcome == Hit && served == stored && cache.rows == old(cache.rows)
              else if call.Reached? then
                var p := PhaseOf(origin, key, stored, client, call);
                var result := FetchResult(origin, key, p);
                && served == Some(result.entry) && outcome == result.outcome
                && cache.rows == RowsAfter(old(cache.rows), key, p, result, call.written)
              else
                && served == stored && outcome == (if stored.Some? then Stale else Failure)
                && cache.rows == old(cache.rows)
      ensures outcome.Hit? <==> key in old(cache.rows) && now - old(cache.rows)[key].fetchedAt < ttl
      ensures outcome.Hit? || outcome.Stale? ==> key in old(cache.rows) && served == Some(old(cache.rows)[key])
      ensures outcome.Hit? || outcome.Stale? || outcome.Failure? ==> cache.rows == old(cache.rows)
      ensures outcome.Stale? || outcome.Failure? ==> call.Unreachable?
      ensures outcome.Miss? || outcome.Revalidated? ==>
                && call.Reached? && served.Some?
                && Landed(origin, key, AnswerTo(origin, key, Lookup(old(cache.rows), key), client, call), call.written,
                          old(cache.rows), cache.rows, served.value, outcome)
    {
      var row := cache.Get(key);
      if row.Some? && Fresh(row.value, now, ttl) {
        journal.Record(Hit);
        return row, Hit;
      }
      var result := Fetch(origin, key, client, call);
      if result.Failed? {
        var stale := cache.Get(key);
        outcome := if stale.Some? then Stale else Failure;
        journal.Record(outcome);
        return stale, outcome;
      }
      journal.Record(result.outcome);
      return Some(result.entry), result.outcome;
    }

    /**
     * Two requests for one key. Once the first is answered by a success that reaches the cache, or by a confirmation
     * of what is there, the second is a hit with the same answer, whatever its headers, until the TTL runs out, give
     * or take the millisecond of the stamp.
     */
    method ServeTwice(origin: Origin, key: string, first: Headers, second: Headers, now: Time, later: Time,
                      call: Call, next: Call)
      returns (before: Option<Entry>, outcome: Outcome, after: Option<Entry>, again: Outcome)
      requires journal.Valid()
      modifies cache, journal
      ensures journal.log == old(journal.log) + [outcome, again]
      ensures var stored := && call.Reached? && call.written && before.Some?
                            && (outcome.Revalidated? || (outcome.Miss? && 200 <= before.value.status < 300));
              && (stored && later - call.now <= ttl - MILLISECOND ==>
                    again.Hit? && after.Some? && SameButTime(after.value, before.value))
              && (stored && later - call.now >= ttl ==> !again.Hit?)
    {
      before, outcome := ServeHTTP(origin, key, first, now, call);
      after, again := ServeHTTP(origin, key, second, later, next);
    }
  }
}
