/** What the proxy's steps do for a request: when it is a hit, what a fetch leaves in the cache, and who shares it. */
module ProxyMeaning {
  import opened Text
  import opened Cache
  import opened Proxy

  /** The validator the origin is shown: the row's tag, else the client's headers, else the row's date. */
  predicate Unmodified(origin: Origin, key: string, at: Time, stored: Option<Entry>, client: Headers) {
    var reply := origin.reply(key, at);
    var tag := if stored.Some? && stored.value.etag != "" then stored.value.etag else client.ifNoneMatch;
    var ownDate := client.ifModifiedSince == "" && stored.Some? && stored.value.etag == "";
    var since := if ownDate then stored.value.lastModified else client.ifModifiedSince;
    && 200 <= reply.status < 300
    && if tag != "" then origin.matches(tag, reply.etag)
       else
         && since != "" && origin.date(since).Some? && reply.lastModified != "" && origin.date(reply.lastModified).Some?
         && origin.date(reply.lastModified).value <= origin.date(since).value
  }

  lemma UnmodifiedExactly(origin: Origin, key: string, at: Time, stored: Option<Entry>, client: Headers)
    ensures MayAnswer304(origin, key, at, stored, client) <==> Unmodified(origin, key, at, stored, client)
  {
  }

  ghost predicate OthersKept(before: Rows, after: Rows, key: string) {
    forall k :: k != key ==> (k in after <==> k in before) && (k in after ==> after[k] == before[k])
  }

  /**
   * An answered fetch. A 304 on a stored row confirms it: only its time moves, and it is what is served. Any other
   * answer is served as it is, and a success becomes the row. Without a write, or a success, the cache stays as it
   * was.
   */
  ghost predicate Landed(origin: Origin, key: string, p: Phase, written: bool, before: Rows, after: Rows, entry: Entry,
                         outcome: Outcome)
    requires p.Received?
  {
    var reply := origin.reply(key, p.heldAt);
    && entry.fetchedAt == p.now && OthersKept(before, after, key)
    && if p.stored.Some? && (p.notModified || reply.status == 304) then
         && outcome.Revalidated?
         && entry.body == p.stored.value.body && entry.status == p.stored.value.status
         && entry.etag == p.stored.value.etag && entry.lastModified == p.stored.value.lastModified
         && (key in after <==> key in before)
         && (key in before && !written ==> after[key] == before[key])
         && (key in before && written ==> SameButTime(before[key], after[key]) && JustBefore(after[key], p.now))
       else
         && outcome.Miss?
         && entry.etag == reply.etag && entry.lastModified == reply.lastModified
         && (p.notModified ==> entry.status == 304 && entry.body == "")
         && (!p.notModified ==> entry.status == reply.status && entry.body == reply.body)
         && (written && 200 <= entry.status < 300 ==>
               key in after && SameButTime(entry, after[key]) && JustBefore(after[key], p.now))
         && (!(written && 200 <= entry.status < 300) ==> after == before)
  }

  predicate SameButTime(a: Entry, b: Entry) {
    a.status == b.status && a.body == b.body && a.etag == b.etag && a.lastModified == b.lastModified
  }

  /** The stamp is the time, cut to the millisecond. */
  predicate JustBefore(e: Entry, at: Time) {
    e.fetchedAt <= at < e.fetchedAt + 1_000_000 && e.fetchedAt % 1_000_000 == 0
  }

  lemma LandsAsSaid(origin: Origin, key: string, p: Phase, written: bool, rows: Rows)
    requires p.Received?
    ensures var result := FetchResult(origin, key, p);
            && result.Fetched?
            && Landed(origin, key, p, written, rows, RowsAfter(rows, key, p, result, written), result.entry,
                 result.outcome)
  {
    MilliIsWhole(p.now);
  }

  lemma MilliIsWhole(t: Time)
    ensures Milli(t) % 1_000_000 == 0
  {
  }

  // ---- Runs of the steps ----

  /** These actions, in order, lead from s to t. */
  predicate Leads(origin: Origin, ttl: Time, s: State, actions: seq<Action>, t: State) {
    AllEnabled(origin, ttl, s, actions) && Run(origin, ttl, s, actions) == t
  }

  lemma {:induction false} LeadsFurther(
    origin: Origin, ttl: Time, s: State, actions: seq<Action>, t: State, more: seq<Action>, u: State
  )
    requires Leads(origin, ttl, s, actions, t) && Leads(origin, ttl, t, more, u)
    ensures Leads(origin, ttl, s, actions + more, u)
    decreases |actions|
  {
    hide Step, Enabled;
    if actions == [] {
      assert actions + more == more;
    } else {
      LeadsFurther(origin, ttl, Step(origin, ttl, s, actions[0]), actions[1..], t, more, u);
      assert (actions + more)[1..] == actions[1..] + more;
    }
  }

  lemma LeadsByTwo(origin: Origin, ttl: Time, s: State, x: Action, y: Action)
    requires Enabled(origin, s, x) && Enabled(origin, Step(origin, ttl, s, x), y)
    ensures Leads(origin, ttl, s, [x, y], Step(origin, ttl, Step(origin, ttl, s, x), y))
  {
    hide Step, Enabled;
    assert [x, y][0] == x && [x, y][1..] == [y];
    LeadsByOne(origin, ttl, Step(origin, ttl, s, x), y);
  }

  lemma LeadsByOne(origin: Origin, ttl: Time, s: State, x: Action)
    requires Enabled(origin, s, x)
    ensures Leads(origin, ttl, s, [x], Step(origin, ttl, s, x))
  {
    hide Step, Enabled;
    assert [x][0] == x && [x][1..] == [];
    var t := Step(origin, ttl, s, x);
    assert AllEnabled(origin, ttl, t, []) && Run(origin, ttl, t, []) == t;
  }

  function Look(id: nat, key: string, client: Headers): seq<Action> { [Arrive(id, key, client), CheckFresh(id)] }

  /** A request that finds a row within its TTL is answered with it, and no fetch starts. */
  lemma {:induction false} FreshRowIsHit(origin: Origin, ttl: Time, s: State, id: nat, key: string, client: Headers)
    requires id !in s.requests && key in s.rows && s.clock - s.rows[key].fetchedAt < ttl
    ensures AllEnabled(origin, ttl, s, Look(id, key, client))
    ensures var t := Run(origin, ttl, s, Look(id, key, client));
            && t.served == s.served + [Served(key, s.rows[key], Hit, s.clock)] && t.log == s.log + [Hit]
            && t.rows == s.rows && t.flights == s.flights && t.nextFlight == s.nextFlight
            && id in t.requests && t.requests[id].stage.Finished?
  {
    hide AllEnabled, Run;
    LeadsByTwo(origin, ttl, s, Arrive(id, key, client), CheckFresh(id));
  }

  predicate Expired(s: State, key: string, ttl: Time) {
    key in s.rows ==> s.clock - s.rows[key].fetchedAt >= ttl
  }

  lemma MissLeads(origin: Origin, ttl: Time, s: State, id: nat, key: string, client: Headers)
    requires id !in s.requests && Expired(s, key, ttl)
    ensures Leads(origin, ttl, s, Look(id, key, client), s.(requests := s.requests[id := Pending(key, client, Missed)]))
  {
    hide Leads;
    LeadsByTwo(origin, ttl, s, Arrive(id, key, client), CheckFresh(id));
    assert s.requests[id := Pending(key, client, Looked(Lookup(s.rows, key)))][id := Pending(key, client, Missed)]
        == s.requests[id := Pending(key, client, Missed)];
  }

  /** After a purge no request is a hit. */
  lemma {:induction false} PurgedIsMiss(origin: Origin, ttl: Time, s: State, id: nat, key: string, client: Headers)
    requires id !in s.requests
    ensures AllEnabled(origin, ttl, s, [Purge] + Look(id, key, client))
    ensures var t := Run(origin, ttl, s, [Purge] + Look(id, key, client));
            && t.rows == map[] && t.log == s.log && t.served == s.served && t.flights == s.flights
            && id in t.requests && t.requests[id].stage.Missed?
  {
    hide AllEnabled, Run;
    LeadsByOne(origin, ttl, s, Purge);
    var u := Step(origin, ttl, s, Purge);
    MissLeads(origin, ttl, u, id, key, client);
    LeadsFurther(origin, ttl, s, [Purge], u, Look(id, key, client),
                 u.(requests := u.requests[id := Pending(key, client, Missed)]));
  }

  /** Two requests for one key, and whose fetch they wait for. */
  datatype Pair = Pair(key: string, a: nat, b: nat, first: Headers, second: Headers)

  /** Both requests miss before either's fetch begins. */
  function Gather(q: Pair): seq<Action> {
    Look(q.a, q.key, q.first) + (Look(q.b, q.key, q.second) + [Join(q.a), Join(q.b)])
  }

  function Gathered(s: State, q: Pair, p: Phase): State {
    s.(flights := s.flights[q.key := Flight(s.nextFlight, q.first, p)], nextFlight := s.nextFlight + 1,
       requests := s.requests[q.a := Pending(q.key, q.first, Waiting(s.nextFlight))]
                   [q.b := Pending(q.key, q.second, Waiting(s.nextFlight))])
  }

  predicate NewPair(s: State, q: Pair) {
    q.a != q.b && q.a !in s.requests && q.b !in s.requests && q.key !in s.flights
  }

  lemma {:induction false} GatherLeads(origin: Origin, ttl: Time, s: State, q: Pair)
    requires NewPair(s, q) && Expired(s, q.key, ttl)
    ensures Leads(origin, ttl, s, Gather(q), Gathered(s, q, Started))
  {
    hide Leads;
    var s1 := s.(requests := s.requests[q.a := Pending(q.key, q.first, Missed)]);
    var s2 := s1.(requests := s1.requests[q.b := Pending(q.key, q.second, Missed)]);
    MissLeads(origin, ttl, s, q.a, q.key, q.first);
    MissLeads(origin, ttl, s1, q.b, q.key, q.second);
    JoinsLead(origin, ttl, s, s2, q);
    LeadsFurther(origin, ttl, s1, Look(q.b, q.key, q.second), s2, [Join(q.a), Join(q.b)], Gathered(s, q, Started));
    LeadsFurther(origin, ttl, s, Look(q.a, q.key, q.first), s1, Look(q.b, q.key, q.second) + [Join(q.a), Join(q.b)],
                 Gathered(s, q, Started));
  }

  lemma JoinsLead(origin: Origin, ttl: Time, s: State, t: State, q: Pair)
    requires NewPair(s, q)
    requires t == s.(requests := s.requests[q.a := Pending(q.key, q.first, Missed)]
                                 [q.b := Pending(q.key, q.second, Missed)])
    ensures Leads(origin, ttl, t, [Join(q.a), Join(q.b)], Gathered(s, q, Started))
  {
    hide Leads;
    LeadsByTwo(origin, ttl, t, Join(q.a), Join(q.b));
    var u := Step(origin, ttl, Step(origin, ttl, t, Join(q.a)), Join(q.b));
    assert u.requests == Gathered(s, q, Started).requests;
  }

  lemma ReadLeads(origin: Origin, ttl: Time, s: State, q: Pair)
    ensures Leads(origin, ttl, Gathered(s, q, Started), [ReadStored(q.key), Send(q.key)],
                  Gathered(s, q, Sent(Lookup(s.rows, q.key), s.clock)))
  {
    hide Leads;
    var u := Gathered(s, q, Started);
    LeadsByTwo(origin, ttl, u, ReadStored(q.key), Send(q.key));
    assert Step(origin, ttl, Step(origin, ttl, u, ReadStored(q.key)), Send(q.key)).flights
        == Gathered(s, q, Sent(Lookup(s.rows, q.key), s.clock)).flights;
  }

  function AnswerIn(s: State, q: Pair, notModified: bool): Phase {
    Received(Lookup(s.rows, q.key), s.clock, s.clock, notModified, s.clock)
  }

  lemma AnswerLeads(origin: Origin, ttl: Time, s: State, q: Pair, notModified: bool)
    requires notModified ==> Unmodified(origin, q.key, s.clock, Lookup(s.rows, q.key), q.first)
    ensures Leads(origin, ttl, Gathered(s, q, Sent(Lookup(s.rows, q.key), s.clock)),
                  [Answer(q.key, notModified), Receive(q.key)], Gathered(s, q, AnswerIn(s, q, notModified)))
  {
    hide Leads, MayAnswer304, Unmodified;
    UnmodifiedExactly(origin, q.key, s.clock, Lookup(s.rows, q.key), q.first);
    var u := Gathered(s, q, Sent(Lookup(s.rows, q.key), s.clock));
    LeadsByTwo(origin, ttl, u, Answer(q.key, notModified), Receive(q.key));
    assert Step(origin, ttl, Step(origin, ttl, u, Answer(q.key, notModified)), Receive(q.key)).flights
        == Gathered(s, q, AnswerIn(s, q, notModified)).flights;
  }

  lemma FinishLeads(origin: Origin, ttl: Time, s: State, q: Pair, result: Result, flight: nat)
    requires q.a != q.b && q.a in s.requests && q.b in s.requests && s.requests[q.a].key == s.requests[q.b].key == q.key
    requires s.requests[q.a].stage == s.requests[q.b].stage == Waiting(flight)
    requires flight in s.results && s.results[flight].1 == result
    ensures var t := Step(origin, ttl, Step(origin, ttl, s, Finish(q.a)), Finish(q.b));
            && Leads(origin, ttl, s, [Finish(q.a), Finish(q.b)], t)
            && t.rows == s.rows && t.flights == s.flights && t.nextFlight == s.nextFlight
            && (result.Fetched? ==> ServedTwice(s, t, Served(q.key, result.entry, result.outcome, s.clock)))
            && (result.Failed? && q.key in s.rows ==>
                  ServedTwice(s, t, Served(q.key, s.rows[q.key], Stale, s.clock)))
            && (result.Failed? && q.key !in s.rows ==> t.served == s.served && t.log == s.log + [Failure, Failure])
  {
    hide Leads;
    LeadsByTwo(origin, ttl, s, Finish(q.a), Finish(q.b));
    assert forall o: Outcome :: s.log + [o] + [o] == s.log + [o, o];
    assert forall v: Served :: s.served + [v] + [v] == s.served + [v, v];
  }

  /** Both requests get the same answer. */
  predicate ServedTwice(s: State, t: State, v: Served) {
    t.served == s.served + [v, v] && t.log == s.log + [v.outcome, v.outcome]
  }

  function FetchOnce(q: Pair, notModified: bool, written: bool): seq<Action> {
    [ReadStored(q.key), Send(q.key)]
    + ([Answer(q.key, notModified), Receive(q.key)] + ([Land(q.key, written)] + [Finish(q.a), Finish(q.b)]))
  }

  /**
   * Two requests for a row that is missing or past its TTL share one fetch: both are served what it returns, and the
   * cache is left as the fetch says.
   */
  lemma {:induction false} RequestsShareAFetch(
    origin: Origin, ttl: Time, s: State, q: Pair, notModified: bool, written: bool
  ) returns (v: Served)
    requires NewPair(s, q) && Expired(s, q.key, ttl)
    requires notModified ==> Unmodified(origin, q.key, s.clock, Lookup(s.rows, q.key), q.first)
    ensures AllEnabled(origin, ttl, s, Gather(q) + FetchOnce(q, notModified, written))
    ensures var t := Run(origin, ttl, s, Gather(q) + FetchOnce(q, notModified, written));
            && v.key == q.key && v.at == s.clock && ServedTwice(s, t, v)
            && Landed(origin, q.key, AnswerIn(s, q, notModified), written, s.rows, t.rows, v.entry, v.outcome)
            && t.flights == s.flights && t.nextFlight == s.nextFlight + 1
  {
    hide AllEnabled, Run, FetchResult, RowsAfter, Unmodified, ForeignAfter, Landed;
    var p := AnswerIn(s, q, notModified);
    LandsAsSaid(origin, q.key, p, written, s.rows);
    var u := Gathered(s, q, p);
    LeadsByOne(origin, ttl, u, Land(q.key, written));
    var l := Step(origin, ttl, u, Land(q.key, written));
    assert l.flights == s.flights;
    var result := FetchResult(origin, q.key, p);
    FinishLeads(origin, ttl, l, q, result, s.nextFlight);
    v := Served(q.key, result.entry, result.outcome, s.clock);
    GatherLeads(origin, ttl, s, q);
    ReadLeads(origin, ttl, s, q);
    AnswerLeads(origin, ttl, s, q, notModified);
    var t := Step(origin, ttl, Step(origin, ttl, l, Finish(q.a)), Finish(q.b));
    var last := [Land(q.key, written)] + [Finish(q.a), Finish(q.b)];
    var answered := [Answer(q.key, notModified), Receive(q.key)] + last;
    var asked := Gathered(s, q, Sent(Lookup(s.rows, q.key), s.clock));
    LeadsFurther(origin, ttl, u, [Land(q.key, written)], l, [Finish(q.a), Finish(q.b)], t);
    LeadsFurther(origin, ttl, asked, [Answer(q.key, notModified), Receive(q.key)], u, last, t);
    LeadsFurther(origin, ttl, Gathered(s, q, Started), [ReadStored(q.key), Send(q.key)], asked, answered, t);
    LeadsFurther(origin, ttl, s, Gather(q), Gathered(s, q, Started), FetchOnce(q, notModified, written), t);
  }

  function FetchInVain(q: Pair): seq<Action> {
    [ReadStored(q.key), Send(q.key)] + ([Abort(q.key)] + [Finish(q.a), Finish(q.b)])
  }

  /** When the shared fetch fails, a stored row is served stale, or else both requests fail; the cache stays. */
  lemma {:induction false} FailedFetchServesStale(origin: Origin, ttl: Time, s: State, q: Pair)
    requires NewPair(s, q) && Expired(s, q.key, ttl)
    ensures AllEnabled(origin, ttl, s, Gather(q) + FetchInVain(q))
    ensures var t := Run(origin, ttl, s, Gather(q) + FetchInVain(q));
            && t.rows == s.rows && t.flights == s.flights
            && if q.key in s.rows then ServedTwice(s, t, Served(q.key, s.rows[q.key], Stale, s.clock))
               else t.served == s.served && t.log == s.log + [Failure, Failure]
  {
    hide AllEnabled, Run;
    var u := Gathered(s, q, Sent(Lookup(s.rows, q.key), s.clock));
    LeadsByOne(origin, ttl, u, Abort(q.key));
    var l := Step(origin, ttl, u, Abort(q.key));
    assert l.flights == s.flights;
    FinishLeads(origin, ttl, l, q, Failed, s.nextFlight);
    GatherLeads(origin, ttl, s, q);
    ReadLeads(origin, ttl, s, q);
    var t := Step(origin, ttl, Step(origin, ttl, l, Finish(q.a)), Finish(q.b));
    LeadsFurther(origin, ttl, u, [Abort(q.key)], l, [Finish(q.a), Finish(q.b)], t);
    LeadsFurther(origin, ttl, Gathered(s, q, Started), [ReadStored(q.key), Send(q.key)], u,
                 [Abort(q.key)] + [Finish(q.a), Finish(q.b)], t);
    LeadsFurther(origin, ttl, s, Gather(q), Gathered(s, q, Started), FetchInVain(q), t);
  }
}
