/** What the proxy's counters say of the requests it has answered. */
module ProxyCount {
  import opened Cache
  import opened Proxy

  function Concluded(s: State): set<nat> { set id | id in s.requests && s.requests[id].stage.Finished? }

  function Outcomes(served: seq<Served>): seq<Outcome> {
    seq(|served|, i requires 0 <= i < |served| => served[i].outcome)
  }

  function WithoutFailures(log: seq<Outcome>): seq<Outcome> {
    if log == [] then []
    else
      var before, last := WithoutFailures(log[..|log| - 1]), log[|log| - 1];
      if last.Failure? then before else before + [last]
  }

  /** The log has one line for each finished request, and all but its failures were served. */
  predicate Counted(s: State) { |s.log| == |Concluded(s)| && WithoutFailures(s.log) == Outcomes(s.served) }

  lemma LogGrows(log: seq<Outcome>, outcome: Outcome)
    ensures WithoutFailures(log + [outcome]) == WithoutFailures(log) + if outcome.Failure? then [] else [outcome]
  {
    assert (log + [outcome])[..|log|] == log;
  }

  lemma AnswerKeepsCounted(s: State, t: State, id: nat, outcome: Outcome)
    requires Counted(s) && id in s.requests && !s.requests[id].stage.Finished?
    requires t.requests == s.requests[id := s.requests[id].(stage := Finished)] && t.log == s.log + [outcome]
    requires outcome.Failure? ==> t.served == s.served
    requires !outcome.Failure? ==>
               && |t.served| == |s.served| + 1 && t.served[..|s.served|] == s.served
               && t.served[|s.served|].outcome == outcome
    ensures Counted(t)
  {
    assert Concluded(t) == Concluded(s) + {id};
    LogGrows(s.log, outcome);
    if !outcome.Failure? {
      assert Outcomes(t.served) == Outcomes(s.served) + [outcome];
    }
  }

  lemma ElseKeepsCounted(s: State, t: State)
    requires Counted(s) && t.log == s.log && t.served == s.served
    requires forall id :: (id in t.requests && t.requests[id].stage.Finished?) <==>
               (id in s.requests && s.requests[id].stage.Finished?)
    ensures Counted(t)
  {
    assert Concluded(t) == Concluded(s);
  }

  lemma {:induction false} StepKeepsCounted(origin: Origin, ttl: Time, s: State, a: Action)
    requires Counted(s) && Enabled(origin, s, a)
    requires forall id :: id in s.results && s.results[id].1.Fetched? ==> !s.results[id].1.outcome.Failure?
    ensures Counted(Step(origin, ttl, s, a))
  {
    hide Counted, FetchResult, RowsAfter, ForeignAfter, MayAnswer304, Fresh;
    var t := Step(origin, ttl, s, a);
    if a.CheckFresh? && t.log != s.log {
      AnswerKeepsCounted(s, t, a.id, Hit);
    } else if a.Finish? {
      match s.results[s.requests[a.id].stage.flight].1 {
        case Fetched(entry, outcome) => AnswerKeepsCounted(s, t, a.id, outcome);
        case Failed => AnswerKeepsCounted(s, t, a.id, if s.requests[a.id].key in s.rows then Stale else Failure);
      }
    } else {
      ElseKeepsCounted(s, t);
    }
  }

  lemma {:induction false} RunKeepsCounted(origin: Origin, ttl: Time, s: State, actions: seq<Action>)
    requires HonestValidators(origin) && Inv(origin, ttl, s) && Counted(s) && AllEnabled(origin, ttl, s, actions)
    ensures Counted(Run(origin, ttl, s, actions))
    decreases |actions|
  {
    hide Step, Enabled, HonestValidators, Counted;
    if actions != [] {
      StepKeepsInv(origin, ttl, s, actions[0]);
      StepKeepsCounted(origin, ttl, s, actions[0]);
      RunKeepsCounted(origin, ttl, Step(origin, ttl, s, actions[0]), actions[1..]);
    }
  }

  lemma {:induction false} FailuresAreErrors(log: seq<Outcome>)
    ensures |log| == |WithoutFailures(log)| + CountAll(log).errors
  {
    if log != [] {
      FailuresAreErrors(log[..|log| - 1]);
    }
  }

  /**
   * Over every run the counters add up: each answered request once, and each answer under the heading it was served
   * as.
   */
  lemma {:induction false} EveryRequestIsCounted(origin: Origin, ttl: Time, actions: seq<Action>)
    requires HonestValidators(origin) && AllEnabled(origin, ttl, START, actions)
    ensures var s := Run(origin, ttl, START, actions);
            var stats := CountAll(s.log);
            && stats.requests == |Concluded(s)|
            && stats.requests == stats.cacheHits + stats.upstreamCalls + stats.servedStale + stats.errors
            && stats.errors == |Concluded(s)| - |s.served| && stats.errors == multiset(s.log)[Failure]
            && stats.cacheHits == multiset(s.log)[Hit] && stats.servedStale == multiset(s.log)[Stale]
            && stats.revalidated == multiset(s.log)[Revalidated]
            && stats.upstreamCalls == multiset(s.log)[Miss] + multiset(s.log)[Revalidated]
            && WithoutFailures(s.log) == Outcomes(s.served)
  {
    hide AllEnabled, Run, HonestValidators, Inv;
    StartIsSound(origin, ttl);
    RunKeepsCounted(origin, ttl, START, actions);
    var s := Run(origin, ttl, START, actions);
    EveryRequestCountedOnce(s.log);
    FailuresAreErrors(s.log);
  }
}
