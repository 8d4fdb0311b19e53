/**
 * The caching proxy as interleaved steps over one shared cache: requests, at most one upstream fetch per key,
 * purges, and a clock (cmd/devserver/proxy.go).
 */
module Proxy {
  import opened Text
  import opened Cache

  const UPSTREAM_TIMEOUT: Time := 30_000_000_000

  /** What the origin would answer to an unconditional request. */
  datatype Reply = Reply(status: int, body: string, etag: string, lastModified: string)

  /**
   * The origin: its answers depend on the request and the time only, `matches` compares an If-None-Match header with a
   * current entity tag, and `date` reads an HTTP date.
   */
  datatype Origin = Origin(
    reply: (string, Time) -> Reply, matches: (string, string) -> bool, date: string -> Option<nat>)

  const NOT_MODIFIED := 304

  /** The answer is not newer than an If-Modified-Since date. */
  predicate NotSince(origin: Origin, since: string, r: Reply) {
    && r.lastModified != "" && origin.date(since).Some? && origin.date(r.lastModified).Some?
    && origin.date(r.lastModified).value <= origin.date(since).value
  }

  predicate Revised(origin: Origin, key: string, s: Time, t: Time) {
    origin.reply(key, s).body != origin.reply(key, t).body
  }

  predicate BothSucceed(origin: Origin, key: string, s: Time, t: Time) {
    Success(origin.reply(key, s).status) && Success(origin.reply(key, t).status)
  }

  predicate SameTag(origin: Origin, key: string, s: Time, t: Time) {
    && BothSucceed(origin, key, s, t)
    && origin.reply(key, s).etag != "" && origin.matches(origin.reply(key, s).etag, origin.reply(key, t).etag)
  }

  predicate SameDate(origin: Origin, key: string, s: Time, t: Time) {
    && s <= t && BothSucceed(origin, key, s, t)
    && origin.reply(key, s).lastModified != ""
         && NotSince(origin, origin.reply(key, s).lastModified, origin.reply(key, t))
  }

  /**
   * Only conditional requests are answered 304. An entity tag that still matches its own header means the same body,
   * and so does a modification date that has not moved (sections 8.8.2 and 8.8.3 of RFC 9110).
   */
  ghost predicate HonestValidators(origin: Origin) {
    && (forall k, t :: origin.reply(k, t).status != NOT_MODIFIED)
    && (forall k, s, t {:trigger Revised(origin, k, s, t)} :: SameTag(origin, k, s, t) ==> !Revised(origin, k, s, t))
    && (forall k, s, t {:trigger Revised(origin, k, s, t)} :: SameDate(origin, k, s, t) ==> !Revised(origin, k, s, t))
  }

  /** The conditional headers a client sends; empty if absent. */
  datatype Headers = Headers(ifNoneMatch: string, ifModifiedSince: string)

  /** One upstream call of `fetch`; `stored` is the row it read first. */
  datatype Phase =
    | Started
    | Read(stored: Option<Entry>)
    | Sent(stored: Option<Entry>, sent: Time)
    | Answered(stored: Option<Entry>, sent: Time, heldAt: Time, notModified: bool)
    | Received(stored: Option<Entry>, sent: Time, heldAt: Time, notModified: bool, now: Time)

  /** A fetch, under the headers of the request that leads it. */
  datatype Flight = Flight(id: nat, client: Headers, phase: Phase)

  datatype Result = Fetched(entry: Entry, outcome: Outcome) | Failed

  /** Where one request stands. */
  datatype Stage = Looked(row: Option<Entry>) | Missed | Waiting(flight: nat) | Finished

  datatype Pending = Pending(key: string, client: Headers, stage: Stage)

  datatype Served = Served(key: string, entry: Entry, outcome: Outcome, at: Time)

  /** `foreign` is history only: the rows and results a 304 to a client's own validator has refreshed. */
  datatype State = State(clock: Time, rows: Rows, flights: map<string, Flight>, results: map<nat, (string, Result)>,
                         requests: map<nat, Pending>, served: seq<Served>, log: seq<Outcome>, nextFlight: nat,
                         foreign: set<(string, Entry)>)

  datatype Action =
    | Tick(d: nat)
    | Arrive(id: nat, key: string, client: Headers)
    | CheckFresh(id: nat)
    | Join(id: nat)
    | ReadStored(key: string)
    | Send(key: string)
    | Answer(key: string, notModified: bool)
    | Receive(key: string)
    | Land(key: string, written: bool)
    | Abort(key: string)
    | Finish(id: nat)
    | Purge

  /** The If-None-Match `fetch` sends: the stored tag replaces the client's. */
  function SentTag(stored: Option<Entry>, client: Headers): string {
    if stored.Some? && stored.value.etag != "" then stored.value.etag else client.ifNoneMatch
  }

  /** The If-Modified-Since `fetch` sends: the client's, or else the date of an untagged row. */
  function SentDate(stored: Option<Entry>, client: Headers): string {
    if stored.Some? && stored.value.lastModified != "" && client.ifModifiedSince == "" && stored.value.etag == ""
    then stored.value.lastModified
    else client.ifModifiedSince
  }

  /**
   * When the origin may answer 304: the tag decides if one was sent, otherwise the date (section 13.2.2 of RFC 9110).
   */
  predicate MayBeNotModified(origin: Origin, key: string, now: Time, tag: string, date: string) {
    var r := origin.reply(key, now);
    Success(r.status) && if tag != "" then origin.matches(tag, r.etag) else date != "" && NotSince(origin, date, r)
  }

  predicate MayAnswer304(origin: Origin, key: string, now: Time, stored: Option<Entry>, client: Headers) {
    MayBeNotModified(origin, key, now, SentTag(stored, client), SentDate(stored, client))
  }

  /**
   * The row carries no tag, and the client's headers, not the row's own date, decide whether the origin answers 304.
   */
  predicate ClientDecides(stored: Option<Entry>, client: Headers) {
    && stored.Some? && stored.value.etag == ""
    && (client.ifNoneMatch != ""
         || (client.ifModifiedSince != "" && client.ifModifiedSince != stored.value.lastModified))
  }

  predicate Enabled(origin: Origin, s: State, a: Action) {
    match a
    case Tick(d) => true
    case Purge => true
    case Arrive(id, key, client) => id !in s.requests
    case CheckFresh(id) => id in s.requests && s.requests[id].stage.Looked?
    case Join(id) => id in s.requests && s.requests[id].stage.Missed?
    case ReadStored(key) => key in s.flights && s.flights[key].phase.Started?
    case Send(key) => key in s.flights && s.flights[key].phase.Read?
    case Answer(key, notModified) =>
      key in s.flights && s.flights[key].phase.Sent?
      && (notModified ==> MayAnswer304(origin, key, s.clock, s.flights[key].phase.stored, s.flights[key].client))
    case Receive(key) =>
      key in s.flights && s.flights[key].phase.Answered? && s.clock - s.flights[key].phase.sent <= UPSTREAM_TIMEOUT
    case Land(key, written) => key in s.flights && s.flights[key].phase.Received?
    case Abort(key) => key in s.flights && !s.flights[key].phase.Started?
    case Finish(id) =>
      id in s.requests && s.requests[id].stage.Waiting? && s.requests[id].stage.flight in s.results
  }

  function Serve(s: State, id: nat, entry: Entry, outcome: Outcome): State
    requires id in s.requests
  {
    var key := s.requests[id].key;
    s.(requests := s.requests[id := s.requests[id].(stage := Finished)],
       served := s.served + [Served(key, entry, outcome, s.clock)],
       log := s.log + [outcome])
  }

  /** What `fetch` returns once the answer is in: a 304 stands for the stored row, if there is one. */
  function FetchResult(origin: Origin, key: string, p: Phase): Result
    requires p.Received?
  {
    var r := origin.reply(key, p.heldAt);
    var status := if p.notModified then NOT_MODIFIED else r.status;
    if status == NOT_MODIFIED && p.stored.Some? then Fetched(p.stored.value.(fetchedAt := p.now), Revalidated)
    else Fetched(Entry(status, if p.notModified then "" else r.body, r.etag, r.lastModified, p.now), Miss)
  }

  /** What `fetch` does to the cache; a failed write is only logged. */
  function RowsAfter(rows: Rows, key: string, p: Phase, result: Result, written: bool): Rows
    requires p.Received? && result.Fetched?
  {
    if !written then rows
    else if result.outcome.Revalidated? then TouchRow(rows, key, p.now)
    else if Success(result.entry.status) then PutRow(rows, key, result.entry)
    else rows
  }

  function Rounded(e: Entry): Entry { e.(fetchedAt := Milli(e.fetchedAt)) }

  function ForeignAfter(s: State, key: string, p: Phase, result: Result): set<(string, Entry)>
    requires key in s.flights && p.Received?
  {
    if result.Fetched? && result.outcome.Revalidated? && ClientDecides(p.stored, s.flights[key].client)
    then s.foreign + {(key, result.entry), (key, Rounded(result.entry))}
    else s.foreign
  }

  function SetPhase(s: State, key: string, p: Phase): State
    requires key in s.flights
  {
    s.(flights := s.flights[key := s.flights[key].(phase := p)])
  }

  function EndFlight(s: State, key: string, result: Result): State
    requires key in s.flights
  {
    s.(flights := s.flights - {key}, results := s.results[s.flights[key].id := (key, result)])
  }

  function Step(origin: Origin, ttl: Time, s: State, a: Action): State
    requires Enabled(origin, s, a)
  {
    match a
    case Tick(d) => s.(clock := s.clock + d)
    case Purge => s.(rows := map[])
    case Arrive(id, key, client) => s.(requests := s.requests[id := Pending(key, client, Looked(Lookup(s.rows, key)))])
    case CheckFresh(id) =>
      var row := s.requests[id].stage.row;
      if row.Some? && Fresh(row.value, s.clock, ttl) then Serve(s, id, row.value, Hit)
      else s.(requests := s.requests[id := s.requests[id].(stage := Missed)])
    case Join(id) =>
      var q := s.requests[id];
      if q.key in s.flights then s.(requests := s.requests[id := q.(stage := Waiting(s.flights[q.key].id))])
      else s.(requests := s.requests[id := q.(stage := Waiting(s.nextFlight))],
              flights := s.flights[q.key := Flight(s.nextFlight, q.client, Started)], nextFlight := s.nextFlight + 1)
    case ReadStored(key) => SetPhase(s, key, Read(Lookup(s.rows, key)))
    case Send(key) => SetPhase(s, key, Sent(s.flights[key].phase.stored, s.clock))
    case Answer(key, notModified) =>
      var p := s.flights[key].phase;
      SetPhase(s, key, Answered(p.stored, p.sent, s.clock, notModified))
    case Receive(key) =>
      var p := s.flights[key].phase;
      SetPhase(s, key, Received(p.stored, p.sent, p.heldAt, p.notModified, s.clock))
    case Land(key, written) =>
      var p := s.flights[key].phase;
      var result := FetchResult(origin, key, p);
      EndFlight(s.(rows := RowsAfter(s.rows, key, p, result, written), foreign := ForeignAfter(s, key, p, result)),
          key, result)
    case Abort(key) => EndFlight(s, key, Failed)
    case Finish(id) =>
      match s.results[s.requests[id].stage.flight].1
      case Fetched(entry, outcome) => Serve(s, id, entry, outcome)
      case Failed =>
        var key := s.requests[id].key;
        if key in s.rows then Serve(s, id, s.rows[key], Stale)
        else s.(requests := s.requests[id := s.requests[id].(stage := Finished)], log := s.log + [Failure])
  }

  // ---- What every reachable state satisfies ----

  /** The origin gave exactly this answer at time t. */
  predicate HeldAt(origin: Origin, key: string, e: Entry, t: Time) {
    && Success(origin.reply(key, t).status) && origin.reply(key, t).body == e.body
    && origin.reply(key, t).etag == e.etag && origin.reply(key, t).lastModified == e.lastModified
  }

  ghost predicate HeldBefore(origin: Origin, key: string, e: Entry, to: Time) {
    exists t :: t <= to && HeldAt(origin, key, e, t)
  }

  /** The origin's current body at time t is this one. */
  predicate CurrentAt(origin: Origin, key: string, e: Entry, t: Time) {
    Success(origin.reply(key, t).status) && origin.reply(key, t).body == e.body
  }

  ghost predicate CurrentDuring(origin: Origin, key: string, e: Entry, from: Time, to: Time) {
    exists t :: from <= t <= to && CurrentAt(origin, key, e, t)
  }

  /**
   * A cached row is a success the origin gave for its key, and it was current shortly before its stamp, unless that
   * stamp came from a 304 to a client's own validator.
   */
  ghost predicate RowSound(origin: Origin, foreign: set<(string, Entry)>, key: string, e: Entry, now: Time) {
    && Success(e.status) && HeldBefore(origin, key, e, now)
    && ((key, e) !in foreign ==> CurrentDuring(origin, key, e, e.fetchedAt - UPSTREAM_TIMEOUT, now))
  }

  predicate TimesInOrder(p: Phase, now: Time) {
    match p
    case Sent(_, sent) => sent <= now
    case Answered(_, sent, heldAt, _) => sent <= heldAt <= now
    case Received(_, sent, heldAt, _, at) => sent <= heldAt <= at <= now && at - sent <= UPSTREAM_TIMEOUT
    case _ => true
  }

  function StoredBy(p: Phase): Option<Entry> { if p.Started? then None else p.stored }

  /** By when the row was stored. */
  function StoredUntil(p: Phase, now: Time): Time { if p.Started? || p.Read? then now else p.sent }

  /** A fetch sees only sound rows, and until it lands nothing but a purge changes its key's row. */
  ghost predicate FlightSound(origin: Origin, s: State, key: string, client: Headers, p: Phase) {
    && TimesInOrder(p, s.clock)
    && (StoredBy(p).Some? ==> RowSound(origin, s.foreign, key, StoredBy(p).value, StoredUntil(p, s.clock)))
    && (!p.Started? && key in s.rows ==> p.stored == Some(s.rows[key]))
    && ((p.Answered? || p.Received?) && p.notModified ==> MayAnswer304(origin, key, p.heldAt, p.stored, client))
  }

  /** A successful answer is one the origin once gave to this very request. */
  ghost predicate Genuine(origin: Origin, key: string, e: Entry, now: Time) {
    Success(e.status) ==> HeldBefore(origin, key, e, now)
  }

  /** What a fetch returned was current within the upstream timeout of its stamp, with the same exception. */
  ghost predicate Recent(origin: Origin, foreign: set<(string, Entry)>, key: string, e: Entry) {
    Success(e.status) && (key, e) !in foreign ==>
      CurrentDuring(origin, key, e, e.fetchedAt - UPSTREAM_TIMEOUT, e.fetchedAt)
  }

  ghost predicate ResultSound(origin: Origin, foreign: set<(string, Entry)>, key: string, r: Result, now: Time) {
    r.Fetched? ==> Genuine(origin, key, r.entry, now) && Recent(origin, foreign, key, r.entry)
                   && (r.outcome.Miss? || r.outcome.Revalidated?)
  }

  /** What a client is told, before any overlay. */
  ghost predicate ServedSound(origin: Origin, ttl: Time, foreign: set<(string, Entry)>, v: Served) {
    && Genuine(origin, v.key, v.entry, v.at)
    && (v.outcome.Hit? ==> Success(v.entry.status))
    && (v.outcome.Hit? && (v.key, v.entry) !in foreign ==>
          CurrentDuring(origin, v.key, v.entry, v.at - ttl - UPSTREAM_TIMEOUT, v.at))
    && (v.outcome.Miss? || v.outcome.Revalidated? ==> Recent(origin, foreign, v.key, v.entry))
  }

  /** A waiting request waits for a fetch of its own key. */
  ghost predicate RequestSound(origin: Origin, s: State, q: Pending) {
    && (q.stage.Looked? && q.stage.row.Some? ==> RowSound(origin, s.foreign, q.key, q.stage.row.value, s.clock))
    && (q.stage.Waiting? ==> WaitsForOwnKey(s, q.key, q.stage.flight))
  }

  predicate WaitsForOwnKey(s: State, key: string, flight: nat) {
    && flight < s.nextFlight
    && (flight in s.results ==> s.results[flight].0 == key)
    && (forall k :: k in s.flights && s.flights[k].id == flight ==> k == key)
  }

  ghost predicate RowsSound(origin: Origin, s: State) {
    forall k :: k in s.rows ==> RowSound(origin, s.foreign, k, s.rows[k], s.clock)
  }

  ghost predicate FlightsSound(origin: Origin, s: State) {
    NumbersSound(s) && forall k :: k in s.flights ==> FlightSound(origin, s, k, s.flights[k].client, s.flights[k].phase)
  }

  /** Every fetch in the air has a number of its own, not yet used for a result. */
  predicate NumbersSound(s: State) {
    && (forall k :: k in s.flights ==> s.flights[k].id < s.nextFlight && s.flights[k].id !in s.results)
    && (forall j, k :: j in s.flights && k in s.flights && s.flights[j].id == s.flights[k].id ==> j == k)
  }

  ghost predicate ResultsSound(origin: Origin, s: State) {
    forall id :: id in s.results ==>
      ResultSound(origin, s.foreign, s.results[id].0, s.results[id].1, s.clock) && id < s.nextFlight
  }

  ghost predicate RequestsSound(origin: Origin, s: State) {
    forall id :: id in s.requests ==> RequestSound(origin, s, s.requests[id])
  }

  ghost predicate AllServedSound(origin: Origin, ttl: Time, s: State) {
    forall i :: 0 <= i < |s.served| ==> ServedSound(origin, ttl, s.foreign, s.served[i])
  }

  ghost predicate Inv(origin: Origin, ttl: Time, s: State) {
    RowsSound(origin, s) && FlightsSound(origin, s) && ResultsSound(origin, s) && RequestsSound(origin, s)
    && AllServedSound(origin, ttl, s)
  }

  const START := State(0, map[], map[], map[], map[], [], [], 0, {})

  // ---- Preservation, one kind of step at a time ----

  lemma {:induction false} TickKeepsInv(origin: Origin, ttl: Time, s: State, d: nat)
    requires Inv(origin, ttl, s)
    ensures Inv(origin, ttl, s.(clock := s.clock + d))
  {
  }

  lemma {:induction false} PurgeKeepsInv(origin: Origin, ttl: Time, s: State)
    requires Inv(origin, ttl, s)
    ensures Inv(origin, ttl, s.(rows := map[]))
  {
  }

  lemma {:induction false} RequestKeepsInv(origin: Origin, ttl: Time, s: State, id: nat, q: Pending)
    requires Inv(origin, ttl, s) && RequestSound(origin, s, q)
    ensures Inv(origin, ttl, s.(requests := s.requests[id := q]))
  {
  }

  lemma {:induction false} ServeKeepsInv(origin: Origin, ttl: Time, s: State, id: nat, e: Entry, outcome: Outcome)
    requires Inv(origin, ttl, s) && id in s.requests
    requires ServedSound(origin, ttl, s.foreign, Served(s.requests[id].key, e, outcome, s.clock))
    ensures Inv(origin, ttl, Serve(s, id, e, outcome))
  {
  }

  /** A fresh row: younger than the TTL by its stamp, and current at most a timeout before its stamp. */
  lemma {:induction false} HitIsSound(
    origin: Origin, ttl: Time, foreign: set<(string, Entry)>, key: string, e: Entry, now: Time
  )
    requires RowSound(origin, foreign, key, e, now) && Fresh(e, now, ttl)
    ensures ServedSound(origin, ttl, foreign, Served(key, e, Hit, now))
  {
  }

  lemma {:induction false} NewFlightKeepsInv(origin: Origin, ttl: Time, s: State, id: nat)
    requires Inv(origin, ttl, s) && id in s.requests && s.requests[id].key !in s.flights
    ensures var q := s.requests[id];
            Inv(origin, ttl, s.(requests := s.requests[id := q.(stage := Waiting(s.nextFlight))],
                                flights := s.flights[q.key := Flight(s.nextFlight, q.client, Started)],
                                nextFlight := s.nextFlight + 1))
  {
    hide HeldAt, CurrentAt, MayAnswer304, Recent, ServedSound, RowSound;
  }

  lemma {:induction false} PhaseKeepsInv(origin: Origin, ttl: Time, s: State, key: string, p: Phase)
    requires Inv(origin, ttl, s) && key in s.flights && FlightSound(origin, s, key, s.flights[key].client, p)
    ensures Inv(origin, ttl, SetPhase(s, key, p))
  {
    hide HeldAt, CurrentAt, MayAnswer304, Recent, ServedSound, RowSound, TimesInOrder;
    var t := SetPhase(s, key, p);
    assert forall k :: k in t.flights ==> t.flights[k].id == s.flights[k].id;
  }

  /** Only the history of foreign refreshes grows. */
  lemma ForeignKeepsInv(origin: Origin, ttl: Time, s: State, foreign: set<(string, Entry)>)
    requires Inv(origin, ttl, s) && s.foreign <= foreign
    ensures Inv(origin, ttl, s.(foreign := foreign))
  {
    hide HeldAt, CurrentAt, MayAnswer304, HeldBefore, CurrentDuring, TimesInOrder;
  }

  /** A fetch ends: its result is recorded under its number and its key may be fetched again. */
  lemma {:induction false} EndKeepsInv(origin: Origin, ttl: Time, s: State, key: string, result: Result, rows: Rows)
    requires Inv(origin, ttl, s) && key in s.flights && ResultSound(origin, s.foreign, key, result, s.clock)
    requires forall k :: k != key ==> (k in rows <==> k in s.rows) && (k in rows ==> rows[k] == s.rows[k])
    requires key in rows ==> RowSound(origin, s.foreign, key, rows[key], s.clock)
    ensures Inv(origin, ttl, EndFlight(s.(rows := rows), key, result))
  {
    hide HeldAt, CurrentAt, MayAnswer304, Recent, ServedSound, RowSound, TimesInOrder, ResultSound;
    var t := EndFlight(s.(rows := rows), key, result);
    var n := s.flights[key].id;
    assert FlightsSound(origin, t) by {
      forall k | k in t.flights ensures FlightSound(origin, t, k, t.flights[k].client, t.flights[k].phase) {
        assert k != key && FlightSound(origin, s, k, s.flights[k].client, s.flights[k].phase);
      }
    }
    assert RequestsSound(origin, t) by {
      forall id | id in t.requests ensures RequestSound(origin, t, t.requests[id]) {
        assert RequestSound(origin, s, s.requests[id]);
      }
    }
  }

  /** A 304 to the row's own validator means its body was current when the origin answered. */
  lemma {:induction false} RevalidatedIsCurrent(
    origin: Origin, key: string, e: Entry, client: Headers, sent: Time, heldAt: Time
  )
    requires HonestValidators(origin) && HeldBefore(origin, key, e, sent) && sent <= heldAt
    requires MayAnswer304(origin, key, heldAt, Some(e), client) && !ClientDecides(Some(e), client)
    ensures CurrentAt(origin, key, e, heldAt)
  {
    var t :| t <= sent && HeldAt(origin, key, e, t);
    assert BothSucceed(origin, key, t, heldAt);
    if e.etag == "" {
      assert SentDate(Some(e), client) == e.lastModified != "";
    }
    assert !Revised(origin, key, t, heldAt);
  }

  /** What lands: the result is genuine and recent, and the row written is sound. */
  lemma {:induction false} LandingIsSound(origin: Origin, s: State, key: string, written: bool)
    requires HonestValidators(origin) && key in s.flights && s.flights[key].phase.Received?
    requires FlightSound(origin, s, key, s.flights[key].client, s.flights[key].phase)
    requires key in s.rows ==> RowSound(origin, s.foreign, key, s.rows[key], s.clock)
    ensures var p := s.flights[key].phase;
            var result := FetchResult(origin, key, p);
            var rows, foreign := RowsAfter(s.rows, key, p, result, written), ForeignAfter(s, key, p, result);
            && ResultSound(origin, foreign, key, result, s.clock)
            && (key in rows ==> RowSound(origin, foreign, key, rows[key], s.clock))
  {
    hide HonestValidators, MayAnswer304, ClientDecides;
    var p, client := s.flights[key].phase, s.flights[key].client;
    var result := FetchResult(origin, key, p);
    var e := result.entry;
    if result.outcome.Revalidated? {
      NotModifiedOnlyWhenAsked(origin, key, p);
      var t :| t <= p.sent && HeldAt(origin, key, p.stored.value, t);
      assert HeldAt(origin, key, e, t) && HeldAt(origin, key, Rounded(e), t);
      if !ClientDecides(p.stored, client) {
        RevalidatedIsCurrent(origin, key, p.stored.value, client, p.sent, p.heldAt);
        assert CurrentAt(origin, key, e, p.heldAt) && CurrentAt(origin, key, Rounded(e), p.heldAt);
      }
    } else if Success(e.status) {
      assert HeldAt(origin, key, e, p.heldAt) && HeldAt(origin, key, Rounded(e), p.heldAt);
      assert CurrentAt(origin, key, e, p.heldAt) && CurrentAt(origin, key, Rounded(e), p.heldAt);
    }
  }

  lemma NotModifiedOnlyWhenAsked(origin: Origin, key: string, p: Phase)
    requires HonestValidators(origin) && p.Received? && FetchResult(origin, key, p).outcome.Revalidated?
    ensures p.notModified
  {
  }

  lemma {:induction false} StepKeepsInv(origin: Origin, ttl: Time, s: State, a: Action)
    requires HonestValidators(origin) && Inv(origin, ttl, s) && Enabled(origin, s, a)
    ensures Inv(origin, ttl, Step(origin, ttl, s, a))
  {
    hide Inv, HonestValidators, HeldAt, CurrentAt, CurrentDuring, HeldBefore, MayAnswer304;
    InvParts(origin, ttl, s);
    match a {
      case Tick(d) => TickKeepsInv(origin, ttl, s, d);
      case Purge => PurgeKeepsInv(origin, ttl, s);
      case Arrive(id, key, client) =>
        RequestKeepsInv(origin, ttl, s, id, Pending(key, client, Looked(Lookup(s.rows, key))));
      case CheckFresh(id) =>
        var q := s.requests[id];
        assert RequestSound(origin, s, q);
        if q.stage.row.Some? && Fresh(q.stage.row.value, s.clock, ttl) {
          HitIsSound(origin, ttl, s.foreign, q.key, q.stage.row.value, s.clock);
          ServeKeepsInv(origin, ttl, s, id, q.stage.row.value, Hit);
        } else {
          RequestKeepsInv(origin, ttl, s, id, q.(stage := Missed));
        }
      case Join(id) =>
        var q := s.requests[id];
        if q.key in s.flights {
          JoiningIsSound(origin, s, q.key);
          RequestKeepsInv(origin, ttl, s, id, q.(stage := Waiting(s.flights[q.key].id)));
        } else {
          NewFlightKeepsInv(origin, ttl, s, id);
        }
      case ReadStored(key) => PhaseKeepsInv(origin, ttl, s, key, Read(Lookup(s.rows, key)));
      case Send(key) =>
        assert FlightSound(origin, s, key, s.flights[key].client, s.flights[key].phase);
        PhaseKeepsInv(origin, ttl, s, key, Sent(s.flights[key].phase.stored, s.clock));
      case Answer(key, notModified) =>
        var p := s.flights[key].phase;
        assert FlightSound(origin, s, key, s.flights[key].client, p);
        PhaseKeepsInv(origin, ttl, s, key, Answered(p.stored, p.sent, s.clock, notModified));
      case Receive(key) =>
        var p := s.flights[key].phase;
        assert FlightSound(origin, s, key, s.flights[key].client, p);
        PhaseKeepsInv(origin, ttl, s, key, Received(p.stored, p.sent, p.heldAt, p.notModified, s.clock));
      case Land(key, written) =>
        var p := s.flights[key].phase;
        assert FlightSound(origin, s, key, s.flights[key].client, p);
        LandingIsSound(origin, s, key, written);
        var result := FetchResult(origin, key, p);
        var foreign := ForeignAfter(s, key, p, result);
        ForeignKeepsInv(origin, ttl, s, foreign);
        EndKeepsInv(origin, ttl, s.(foreign := foreign), key, result, RowsAfter(s.rows, key, p, result, written));
      case Abort(key) => EndKeepsInv(origin, ttl, s, key, Failed, s.rows);
      case Finish(id) => FinishKeepsInv(origin, ttl, s, id);
    }
  }

  lemma InvParts(origin: Origin, ttl: Time, s: State)
    requires Inv(origin, ttl, s)
    ensures RowsSound(origin, s) && FlightsSound(origin, s) && ResultsSound(origin, s) && RequestsSound(origin, s)
  {
  }

  lemma JoiningIsSound(origin: Origin, s: State, key: string)
    requires FlightsSound(origin, s) && key in s.flights
    ensures WaitsForOwnKey(s, key, s.flights[key].id)
  {
  }

  /** A finished wait: the fetch's own result, or the row in the cache if the fetch failed. */
  lemma {:induction false} FinishKeepsInv(origin: Origin, ttl: Time, s: State, id: nat)
    requires Inv(origin, ttl, s) && Enabled(origin, s, Finish(id))
    ensures Inv(origin, ttl, Step(origin, ttl, s, Finish(id)))
  {
    hide Inv, HeldAt, CurrentAt, CurrentDuring, HeldBefore, Recent;
    InvParts(origin, ttl, s);
    var q := s.requests[id];
    assert RequestSound(origin, s, q);
    var (key, result) := s.results[q.stage.flight];
    assert ResultSound(origin, s.foreign, key, result, s.clock) && key == q.key;
    match result {
      case Fetched(entry, outcome) => ServeKeepsInv(origin, ttl, s, id, entry, outcome);
      case Failed =>
        if key in s.rows {
          assert RowSound(origin, s.foreign, key, s.rows[key], s.clock);
          ServeKeepsInv(origin, ttl, s, id, s.rows[key], Stale);
        } else {
          RequestKeepsInv(origin, ttl, s, id, q.(stage := Finished));
          LogKeepsInv(origin, ttl, s.(requests := s.requests[id := q.(stage := Finished)]), s.log + [Failure]);
        }
    }
  }

  lemma LogKeepsInv(origin: Origin, ttl: Time, s: State, log: seq<Outcome>)
    requires Inv(origin, ttl, s)
    ensures Inv(origin, ttl, s.(log := log))
  {
  }

  // ---- Every interleaving ----

  predicate AllEnabled(origin: Origin, ttl: Time, s: State, actions: seq<Action>)
    decreases |actions|
  {
    actions != [] ==>
        Enabled(origin, s, actions[0]) && AllEnabled(origin, ttl, Step(origin, ttl, s, actions[0]), actions[1..])
  }

  function Run(origin: Origin, ttl: Time, s: State, actions: seq<Action>): State
    requires AllEnabled(origin, ttl, s, actions)
    decreases |actions|
  {
    if actions == [] then s else Run(origin, ttl, Step(origin, ttl, s, actions[0]), actions[1..])
  }

  /**
   * Bounded staleness over every interleaving of requests, fetches, failures and purges: every cached row is a success
   * the origin gave for its key, every answer served is one the origin gave for that request, a hit is at most TTL plus
   * the upstream timeout old, and a fetched answer at most the upstream timeout older than its stamp. The two bounds
   * leave out exactly the answers stamped by a 304 to a client's own validator.
   */
  lemma {:induction false} BoundedStaleness(origin: Origin, ttl: Time, s: State, actions: seq<Action>)
    requires HonestValidators(origin) && Inv(origin, ttl, s) && AllEnabled(origin, ttl, s, actions)
    ensures Inv(origin, ttl, Run(origin, ttl, s, actions))
    decreases |actions|
  {
    hide Inv, Step, Enabled, HonestValidators;
    if actions != [] {
      StepKeepsInv(origin, ttl, s, actions[0]);
      BoundedStaleness(origin, ttl, Step(origin, ttl, s, actions[0]), actions[1..]);
    }
  }

  const NO_HEADERS := Headers("", "")

  predicate Plain(s: State) {
    && s.foreign == {}
    && (forall id :: id in s.requests ==> s.requests[id].client == NO_HEADERS)
    && (forall k :: k in s.flights ==> s.flights[k].client == NO_HEADERS)
  }

  lemma PlainStep(origin: Origin, ttl: Time, s: State, a: Action)
    requires Plain(s) && Enabled(origin, s, a) && (a.Arrive? ==> a.client == NO_HEADERS)
    ensures Plain(Step(origin, ttl, s, a))
  {
    hide FetchResult, RowsAfter, MayAnswer304, Fresh;
  }

  lemma {:induction false} PlainRuns(origin: Origin, ttl: Time, s: State, actions: seq<Action>)
    requires Plain(s) && AllEnabled(origin, ttl, s, actions)
    requires forall a :: a in actions && a.Arrive? ==> a.client == NO_HEADERS
    ensures Plain(Run(origin, ttl, s, actions))
    decreases |actions|
  {
    hide Step, Enabled, Plain;
    if actions != [] {
      assert actions[0] in actions;
      PlainStep(origin, ttl, s, actions[0]);
      PlainRuns(origin, ttl, Step(origin, ttl, s, actions[0]), actions[1..]);
    }
  }

  /** While clients send no conditional headers of their own, every hit is bounded, with or without an entity tag. */
  lemma {:induction false} PlainHitsAreBounded(origin: Origin, ttl: Time, actions: seq<Action>)
    requires HonestValidators(origin) && AllEnabled(origin, ttl, START, actions)
    requires forall a :: a in actions && a.Arrive? ==> a.client == NO_HEADERS
    ensures forall v :: v in Run(origin, ttl, START, actions).served && v.outcome.Hit? ==>
              CurrentDuring(origin, v.key, v.entry, v.at - ttl - UPSTREAM_TIMEOUT, v.at)
  {
    hide AllEnabled, Run, HonestValidators;
    StartIsSound(origin, ttl);
    BoundedStaleness(origin, ttl, START, actions);
    PlainRuns(origin, ttl, START, actions);
    var s := Run(origin, ttl, START, actions);
    forall i | 0 <= i < |s.served|
      ensures s.served[i].outcome.Hit? ==>
                CurrentDuring(origin, s.served[i].key, s.served[i].entry, s.served[i].at - ttl - UPSTREAM_TIMEOUT,
                    s.served[i].at)
    {
      assert ServedSound(origin, ttl, s.foreign, s.served[i]);
    }
  }

  lemma StartIsSound(origin: Origin, ttl: Time)
    ensures Inv(origin, ttl, START)
  {
  }
}
