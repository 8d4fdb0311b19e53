/** Why the staleness bound stops where a client's own validator decides. */
module ProxyStale {
  import opened Text
  import opened Cache
  import opened Proxy

  lemma {:induction false} RunSplit(origin: Origin, ttl: Time, s: State, xs: seq<Action>, ys: seq<Action>)
    requires AllEnabled(origin, ttl, s, xs) && AllEnabled(origin, ttl, Run(origin, ttl, s, xs), ys)
    ensures AllEnabled(origin, ttl, s, xs + ys)
    ensures Run(origin, ttl, s, xs + ys) == Run(origin, ttl, Run(origin, ttl, s, xs), ys)
    decreases |xs|
  {
    hide Step, Enabled;
    if xs == [] {
      assert xs + ys == ys;
    } else {
      assert (xs + ys)[0] == xs[0] && (xs + ys)[1..] == xs[1..] + ys;
      RunSplit(origin, ttl, Step(origin, ttl, s, xs[0]), xs[1..], ys);
    }
  }

  lemma {:induction false} RunOne(origin: Origin, ttl: Time, s: State, a: Action, rest: seq<Action>)
    requires Enabled(origin, s, a) && AllEnabled(origin, ttl, Step(origin, ttl, s, a), rest)
    ensures AllEnabled(origin, ttl, s, [a] + rest)
    ensures Run(origin, ttl, s, [a] + rest) == Run(origin, ttl, Step(origin, ttl, s, a), rest)
  {
  }

  function Ask(id: nat, key: string, client: Headers): seq<Action> {
    [Arrive(id, key, client)] + ([CheckFresh(id)] + ([Join(id)] + []))
  }

  function Call(key: string, notModified: bool): seq<Action> {
    [ReadStored(key)] + ([Send(key)] + ([Answer(key, notModified)] + []))
  }

  function Return(key: string): seq<Action> { [Receive(key)] + ([Land(key, true)] + []) }

  /** A request that misses and is fetched without any delay. */
  function FetchNow(id: nat, key: string, client: Headers, notModified: bool): seq<Action> {
    Ask(id, key, client) + (Call(key, notModified) + Return(key))
  }

  predicate CanAsk(s: State, ttl: Time, id: nat, key: string) {
    key !in s.flights && id !in s.requests && (key in s.rows ==> !Fresh(s.rows[key], s.clock, ttl))
  }

  lemma {:induction false} Asks(origin: Origin, ttl: Time, s: State, id: nat, key: string, client: Headers)
    requires CanAsk(s, ttl, id, key)
    ensures AllEnabled(origin, ttl, s, Ask(id, key, client))
    ensures Run(origin, ttl, s, Ask(id, key, client))
            == s.(requests := s.requests[id := Pending(key, client, Waiting(s.nextFlight))],
                  flights := s.flights[key := Flight(s.nextFlight, client, Started)], nextFlight := s.nextFlight + 1)
  {
    hide AllEnabled, Run;
    var s1 := Step(origin, ttl, s, Arrive(id, key, client));
    var s2 := Step(origin, ttl, s1, CheckFresh(id));
    var s3 := Step(origin, ttl, s2, Join(id));
    NothingToDo(origin, ttl, s3);
    RunOne(origin, ttl, s2, Join(id), []);
    RunOne(origin, ttl, s1, CheckFresh(id), [Join(id)] + []);
    RunOne(origin, ttl, s, Arrive(id, key, client), [CheckFresh(id)] + ([Join(id)] + []));
  }

  lemma {:induction false} Calls(origin: Origin, ttl: Time, s: State, key: string, notModified: bool)
    requires key in s.flights && s.flights[key].phase.Started?
    requires notModified ==> MayAnswer304(origin, key, s.clock, Lookup(s.rows, key), s.flights[key].client)
    ensures AllEnabled(origin, ttl, s, Call(key, notModified))
    ensures Run(origin, ttl, s, Call(key, notModified))
            == SetPhase(s, key, Answered(Lookup(s.rows, key), s.clock, s.clock, notModified))
  {
    hide AllEnabled, Run, MayAnswer304;
    var s1 := Step(origin, ttl, s, ReadStored(key));
    var s2 := Step(origin, ttl, s1, Send(key));
    var s3 := Step(origin, ttl, s2, Answer(key, notModified));
    NothingToDo(origin, ttl, s3);
    RunOne(origin, ttl, s2, Answer(key, notModified), []);
    RunOne(origin, ttl, s1, Send(key), [Answer(key, notModified)] + []);
    RunOne(origin, ttl, s, ReadStored(key), [Send(key)] + ([Answer(key, notModified)] + []));
  }

  lemma {:induction false} Returns(origin: Origin, ttl: Time, s: State, key: string)
    requires key in s.flights && s.flights[key].phase.Answered? && s.flights[key].phase.sent == s.clock
    ensures AllEnabled(origin, ttl, s, Return(key))
    ensures var a := s.flights[key].phase;
            var p := Received(a.stored, a.sent, a.heldAt, a.notModified, s.clock);
            var result := FetchResult(origin, key, p);
            Run(origin, ttl, s, Return(key))
            == EndFlight(s.(rows := RowsAfter(s.rows, key, p, result, true),
                foreign := ForeignAfter(s, key, p, result)), key, result)
  {
    hide AllEnabled, Run, FetchResult, RowsAfter, ClientDecides;
    var s1 := Step(origin, ttl, s, Receive(key));
    var s2 := Step(origin, ttl, s1, Land(key, true));
    assert s1.flights - {key} == s.flights - {key};
    NothingToDo(origin, ttl, s2);
    RunOne(origin, ttl, s1, Land(key, true), []);
    RunOne(origin, ttl, s, Receive(key), [Land(key, true)] + []);
  }

  lemma {:induction false} FetchesNow(
    origin: Origin, ttl: Time, s: State, id: nat, key: string, client: Headers, notModified: bool
  )
    requires CanAsk(s, ttl, id, key)
    requires notModified ==> MayAnswer304(origin, key, s.clock, Lookup(s.rows, key), client)
    ensures AllEnabled(origin, ttl, s, FetchNow(id, key, client, notModified))
    ensures var p := Received(Lookup(s.rows, key), s.clock, s.clock, notModified, s.clock);
            var result := FetchResult(origin, key, p);
            var t := Run(origin, ttl, s, FetchNow(id, key, client, notModified));
            && t.requests == s.requests[id := Pending(key, client, Waiting(s.nextFlight))]
            && t.rows == RowsAfter(s.rows, key, p, result, true)
            && t.clock == s.clock && t.flights == s.flights && t.served == s.served
  {
    hide MayAnswer304, FetchResult, RowsAfter, AllEnabled, Run, Step, Ask, Call, Return, ClientDecides;
    Asks(origin, ttl, s, id, key, client);
    var s1 := Run(origin, ttl, s, Ask(id, key, client));
    Calls(origin, ttl, s1, key, notModified);
    var s2 := Run(origin, ttl, s1, Call(key, notModified));
    Returns(origin, ttl, s2, key);
    RunSplit(origin, ttl, s1, Call(key, notModified), Return(key));
    RunSplit(origin, ttl, s, Ask(id, key, client), Call(key, notModified) + Return(key));
    assert s2.flights - {key} == s.flights;
  }

  lemma NothingToDo(origin: Origin, ttl: Time, s: State)
    ensures AllEnabled(origin, ttl, s, []) && Run(origin, ttl, s, []) == s
  {
  }

  // ---- An origin that changes once ----

  const NEW_TAG := "\"new\""

  /**
   * It gives an untagged answer dated `modified` up to time 0, and another one after it, whose validators are those the
   * client already holds: its entity tag if it sends one, otherwise its date.
   */
  function ChangesOnce(modified: string, client: Headers): Origin {
    Origin(
      (key: string, t: Time) =>
        if t <= 0 then Reply(200, "old", "", modified)
        else if client.ifNoneMatch != "" then Reply(200, "new", NEW_TAG, "")
        else Reply(200, "new", "", client.ifModifiedSince),
      (header: string, tag: string) => tag == NEW_TAG && (header == client.ifNoneMatch || header == NEW_TAG),
      (date: string) => Some(if date == client.ifModifiedSince then 1 else 0))
  }

  lemma ChangesOnceIsHonest(modified: string, client: Headers)
    requires ClientDecides(Some(Entry(200, "old", "", modified, 0)), client)
    ensures HonestValidators(ChangesOnce(modified, client))
  {
    var origin := ChangesOnce(modified, client);
    forall k, s, t ensures SameTag(origin, k, s, t) ==> !Revised(origin, k, s, t) {
    }
    forall k, s, t ensures SameDate(origin, k, s, t) ==> !Revised(origin, k, s, t) {
    }
  }

  /** The run: the old answer is fetched and stored, then a request with the client's headers, then one more request. */
  function Refreshed(key: string, client: Headers, wait: nat): seq<Action> {
    FetchNow(0, key, NO_HEADERS, false)
    + ([Tick(wait)] + [] + (FetchNow(1, key, client, true) + ([Arrive(2, key, NO_HEADERS)] + ([CheckFresh(2)] + []))))
  }

  /**
   * Wherever a client's own validator decides, there is no bound: for every date of an untagged row, every such pair of
   * client headers and every age, an honest origin has a run in which the 304 to those headers refreshes the row and a
   * hit serves it although the origin dropped that answer more than `age` ago.
   */
  lemma {:induction false} ClientValidatorsHaveNoBound(
    ttl: Time, age: nat, key: string, modified: string, client: Headers
  )
    requires ttl >= MILLISECOND && ClientDecides(Some(Entry(200, "old", "", modified, 0)), client)
    ensures var origin, actions := ChangesOnce(modified, client), Refreshed(key, client, ttl + age + 1);
            && HonestValidators(origin) && AllEnabled(origin, ttl, START, actions)
            && var s := Run(origin, ttl, START, actions);
               && |s.served| == 1 && s.served[0].outcome.Hit? && s.served[0].key == key
               && s.served[0].entry.etag == "" && s.served[0].entry.lastModified == modified
               && !CurrentDuring(origin, key, s.served[0].entry, s.served[0].at - age, s.served[0].at)
  {
    hide AllEnabled, Run, HonestValidators, FetchNow;
    var origin, wait := ChangesOnce(modified, client), ttl + age + 1;
    ChangesOnceIsHonest(modified, client);
    FetchesNow(origin, ttl, START, 0, key, NO_HEADERS, false);
    var s1 := Run(origin, ttl, START, FetchNow(0, key, NO_HEADERS, false));
    assert Milli(0) == 0;
    assert s1.rows[key] == Entry(200, "old", "", modified, 0);
    var s2 := Step(origin, ttl, s1, Tick(wait));
    NothingToDo(origin, ttl, s2);
    RunOne(origin, ttl, s1, Tick(wait), []);
    FetchesNow(origin, ttl, s2, 1, key, client, true);
    var s3 := Run(origin, ttl, s2, FetchNow(1, key, client, true));
    assert s3.rows[key] == Entry(200, "old", "", modified, Milli(wait));
    var s4 := Step(origin, ttl, s3, Arrive(2, key, NO_HEADERS));
    var s5 := Step(origin, ttl, s4, CheckFresh(2));
    NothingToDo(origin, ttl, s5);
    RunOne(origin, ttl, s4, CheckFresh(2), []);
    RunOne(origin, ttl, s3, Arrive(2, key, NO_HEADERS), [CheckFresh(2)] + []);
    var tail := [Arrive(2, key, NO_HEADERS)] + ([CheckFresh(2)] + []);
    RunSplit(origin, ttl, s2, FetchNow(1, key, client, true), tail);
    RunSplit(origin, ttl, s1, [Tick(wait)] + [], FetchNow(1, key, client, true) + tail);
    RunSplit(origin, ttl, START, FetchNow(0, key, NO_HEADERS, false), [Tick(wait)] + []
        + (FetchNow(1, key, client, true) + tail));
  }
}
