/**
 * What each call of the session service leaves behind, in terms of the records, the live sessions and what went wrong.
 */
module SessionEffects {
  import opened Text
  import opened Sessions

  /** The effect attempted at step i is made. */
  predicate WorksAt(o: Oracle, i: nat) { !o(i).dead && !o(i).fails }

  /** The sessions that do not end on their own between two steps. */
  ghost function Endures(o: Oracle, live: set<nat>, from: nat, to: nat): set<nat> {
    set j | j in live && forall i: nat :: from <= i < to ==> j !in o(i).ended
  }

  lemma EnduresNothing(o: Oracle, live: set<nat>, from: nat)
    ensures Endures(o, live, from, from) == live
  {
  }

  lemma {:induction false} EnduresOn(o: Oracle, live: set<nat>, from: nat, mid: nat, to: nat)
    requires from <= mid <= to
    ensures Endures(o, Endures(o, live, from, mid), mid, to) == Endures(o, live, from, to)
  {
    forall j ensures j in Endures(o, Endures(o, live, from, mid), mid, to) <==> j in Endures(o, live, from, to) {
    }
  }

  lemma EnduresOne(o: Oracle, live: set<nat>, at: nat)
    ensures Endures(o, live, at, at + 1) == live - o(at).ended
  {
    assert forall j :: j in live - o(at).ended ==> forall i: nat :: at <= i < at + 1 ==> j !in o(i).ended;
  }

  /** What is killed stays killed. */
  lemma EnduresLess(o: Oracle, live: set<nat>, gone: set<nat>, from: nat, to: nat)
    ensures Endures(o, live - gone, from, to) == Endures(o, live, from, to) - gone
    ensures Endures(o, live + gone, from, to) == Endures(o, live, from, to) + Endures(o, gone, from, to)
  {
  }

  // ---- Closing and deleting ----

  /** The session ends, if the kill works, and the records stay. */
  ghost predicate Closed(o: Oracle, s: State, id: nat, reply: Reply, t: State) {
    if id !in s.records then reply == Refused && t == s
    else
      var killed := WorksAt(o, s.tick);
      && reply == Finished(killed) && t.records == s.records && t.nextId == s.nextId && t.tick == s.tick + 1
      && t.live == Endures(o, s.live, s.tick, t.tick) - (if killed then {id} else {})
  }

  lemma CloseDoes(o: Oracle, s: State, id: nat)
    ensures var (reply, t) := CloseSession(o, s, id); Closed(o, s, id, reply, t)
  {
    EnduresOne(o, s.live, s.tick);
  }

  /** The session first; its record, and no other, only once the kill has worked. */
  ghost predicate Deleted(o: Oracle, s: State, id: nat, reply: Reply, t: State) {
    if id !in s.records then reply == Refused && t == s
    else
      var killed := WorksAt(o, s.tick);
      var gone := killed && WorksAt(o, s.tick + 1);
      && reply == Finished(gone) && t.nextId == s.nextId && t.tick == s.tick + (if killed then 2 else 1)
      && (forall j :: j in t.records <==> j in s.records && !(gone && j == id))
      && (forall j :: j in t.records ==> t.records[j] == s.records[j])
      && t.live == Endures(o, s.live, s.tick, t.tick) - (if killed then {id} else {})
  }

  lemma {:induction false} DeleteOneDoes(o: Oracle, s: State, id: nat)
    ensures var (reply, t) := DeleteOne(o, s, id); Deleted(o, s, id, reply, t)
  {
    hide Endures;
    EnduresOne(o, s.live, s.tick);
    EnduresOne(o, s.live - o(s.tick).ended, s.tick + 1);
    EnduresOn(o, s.live, s.tick, s.tick + 1, s.tick + 2);
  }

  function Each(ids: seq<nat>): set<nat> { set id | id in ids }

  /** The kills stop at the first that fails; the records are not touched. */
  ghost predicate Killed(o: Oracle, s: State, ids: seq<nat>, all: bool, t: State) {
    && t.records == s.records && t.nextId == s.nextId && s.tick <= t.tick <= s.tick + |ids|
    && (all <==> forall i: nat :: s.tick <= i < s.tick + |ids| ==> WorksAt(o, i))
    && (all ==> t.tick == s.tick + |ids| && t.live == Endures(o, s.live, s.tick, t.tick) - Each(ids))
    && (!all ==> s.tick < t.tick && !WorksAt(o, t.tick - 1)
                 && t.live == Endures(o, s.live, s.tick, t.tick) - Each(ids[..t.tick - s.tick - 1]))
  }

  lemma {:induction false} KillAllDoes(o: Oracle, s: State, ids: seq<nat>)
    ensures var (all, t) := KillAll(o, s, ids); Killed(o, s, ids, all, t)
    decreases |ids|
  {
    hide Endures;
    EnduresNothing(o, s.live, s.tick);
    EnduresOne(o, s.live, s.tick);
    if ids != [] && WorksAt(o, s.tick) {
      var (_, s1) := Kill(o, s, ids[0]);
      KillAllDoes(o, s1, ids[1..]);
      var (all, t) := KillAll(o, s1, ids[1..]);
      EnduresOn(o, s.live, s.tick, s1.tick, t.tick);
      EnduresLess(o, s.live - o(s.tick).ended, {ids[0]}, s1.tick, t.tick);
      if all {
        assert Each(ids) == {ids[0]} + Each(ids[1..]);
      } else {
        var n := t.tick - s.tick - 1;
        assert ids[..n][1..] == ids[1..][..n - 1];
        assert Each(ids[..n]) == {ids[0]} + Each(ids[1..][..n - 1]);
      }
    }
  }

  /**
   * Every effect works and the workspace has neither records nor sessions left, and no other record is gone; or one
   * fails, every record is there, and no session but the workspace's was killed.
   */
  ghost predicate WorkspaceDeleted(o: Oracle, s: State, workspace: string, ids: seq<nat>, reply: Reply, t: State) {
    var worked := forall i: nat :: s.tick <= i < s.tick + |ids| + 3 ==> WorksAt(o, i);
    && reply == Finished(worked) && t.nextId == s.nextId && s.tick < t.tick
    && (forall j :: j in t.records <==> j in s.records && !(worked && s.records[j].workspace == workspace))
    && (forall j :: j in t.records ==> t.records[j] == s.records[j])
    && (worked ==> t.live == Endures(o, s.live, s.tick, t.tick) - Each(ids))
    && Endures(o, s.live, s.tick, t.tick) - Each(ids) <= t.live <= Endures(o, s.live, s.tick, t.tick)
  }

  lemma {:induction false} DeleteAllDoes(o: Oracle, s: State, workspace: string, ids: seq<nat>)
    ensures var (reply, t) := DeleteAll(o, s, workspace, ids); WorkspaceDeleted(o, s, workspace, ids, reply, t)
  {
    hide Endures, KillAll;
    EnduresOne(o, s.live, s.tick);
    if WorksAt(o, s.tick) {
      var s1 := Pass(o, s);
      KillAllDoes(o, s1, ids);
      var (all, s2) := KillAll(o, s1, ids);
      EnduresOn(o, s.live, s.tick, s1.tick, s2.tick);
      if all {
        assert WorksAt(o, s2.tick) == Works(o, s2) && WorksAt(o, s2.tick + 1) == Works(o, Pass(o, s2));
        var live := Endures(o, s.live, s.tick, s2.tick);
        EnduresOne(o, live - Each(ids), s2.tick);
        EnduresLess(o, live, Each(ids), s2.tick, s2.tick + 1);
        EnduresLess(o, live, Each(ids), s2.tick, s2.tick + 2);
        EnduresOn(o, s.live, s.tick, s2.tick, s2.tick + 1);
        EnduresOne(o, Pass(o, s2).live, s2.tick + 1);
        EnduresOn(o, s2.live, s2.tick, s2.tick + 1, s2.tick + 2);
        EnduresOn(o, s.live, s.tick, s2.tick, s2.tick + 2);
      } else {
        assert !WorksAt(o, s2.tick - 1);
        assert Each(ids[..s2.tick - s1.tick - 1]) <= Each(ids);
      }
    }
  }

  // ---- Launching ----

  /** Each of n polls from this step on is answered, and no step among them ends the session. */
  ghost predicate Watched(o: Oracle, from: nat, n: nat, id: nat) {
    forall i: nat :: from <= i < from + n ==> !o(i).dead && !o(i).mute && id !in o(i).ended
  }

  lemma {:induction false} AwaitDoes(o: Oracle, s: State, id: nat, polls: nat)
    ensures var (exited, t) := Await(o, s, id, polls);
            && (!exited <==> id in s.live && Watched(o, s.tick, polls + 1, id))
            && t.records == s.records && t.nextId == s.nextId && s.tick < t.tick <= s.tick + polls + 1
            && (!exited ==> t.tick == s.tick + polls + 1)
            && t.live == Endures(o, s.live, s.tick, t.tick)
    decreases polls
  {
    hide Endures;
    EnduresOne(o, s.live, s.tick);
    var (answer, s1) := Probe(o, s, id);
    if answer == Some(true) && polls > 0 {
      AwaitDoes(o, s1, id, polls - 1);
      EnduresOn(o, s.live, s.tick, s1.tick, Await(o, s1, id, polls - 1).1.tick);
    } else {
      assert Watched(o, s.tick, polls + 1, id) ==> !o(s.tick).dead && !o(s.tick).mute && id !in o(s.tick).ended;
    }
  }

  /** The terminal was created: the count worked, it is below the cap, and so did the creation. */
  predicate Began(o: Oracle, s: State) {
    WorksAt(o, s.tick) && |s.live - o(s.tick).ended| < 8 && WorksAt(o, s.tick + 1)
  }

  /** It was recorded as opened, and every poll found it running. */
  ghost predicate Stays(o: Oracle, s: State, id: nat, polls: nat) {
    Began(o, s) && WorksAt(o, s.tick + 2) && id !in o(s.tick + 2).ended && Watched(o, s.tick + 3, polls + 1, id)
  }

  /** How a launch of this record's terminal ends, and what it leaves. */
  ghost predicate Launched(o: Oracle, s: State, id: nat, detached: bool, polls: nat, outcome: Outcome, t: State) {
    && OutcomeFits(o, s, id, detached, polls, outcome) && t.nextId == s.nextId && s.tick < t.tick
    && (Began(o, s) ==> t.records == s.records && s.tick + 3 <= t.tick)
    && (!Began(o, s) ==> t.records == if detached && WorksAt(o, t.tick - 1) then s.records - {id} else s.records)
    && (!Began(o, s) ==>
         t.tick == s.tick + (if outcome == Failed(Launching) then 2 else 1) + (if detached then 1 else 0))
    && t.live == Endures(o, s.live, s.tick, t.tick)
                 + (if Began(o, s) then Endures(o, {id}, s.tick + 2, t.tick) else {})
  }

  ghost predicate OutcomeFits(o: Oracle, s: State, id: nat, detached: bool, polls: nat, outcome: Outcome) {
    var room := |s.live - o(s.tick).ended| < 8;
    match outcome
    case Failed(Counting) => !WorksAt(o, s.tick)
    case Failed(Capped) => WorksAt(o, s.tick) && !room
    case Failed(Launching) => WorksAt(o, s.tick) && room && !WorksAt(o, s.tick + 1)
    case Failed(Touching) => Began(o, s) && !WorksAt(o, s.tick + 2)
    case ExitedEarly => Began(o, s) && WorksAt(o, s.tick + 2) && !Stays(o, s, id, polls)
    case Opened => Stays(o, s, id, polls) && (detached || WorksAt(o, s.tick + 4 + polls))
    case Failed(Attaching) => Stays(o, s, id, polls) && !detached && !WorksAt(o, s.tick + 4 + polls)
    case Failed(Exiting) => false
  }

  lemma {:induction false} SettleDoes(o: Oracle, s: State, s1: State, id: nat, detached: bool, polls: nat)
    requires Began(o, s) && s1 == NewSession(o, Pass(o, s), id).1
    ensures var (outcome, t) := Settle(o, s1, id, detached, polls);
            && OutcomeFits(o, s, id, detached, polls, outcome)
            && t.records == s.records && t.nextId == s.nextId && s.tick + 3 <= t.tick
            && t.live == Endures(o, s1.live, s1.tick, t.tick)
  {
    hide Endures, Await, Watched;
    EnduresOne(o, s1.live, s1.tick);
    var s2 := Pass(o, s1);
    if WorksAt(o, s1.tick) {
      AwaitDoes(o, s2, id, polls);
      var (exited, s3) := Await(o, s2, id, polls);
      EnduresOn(o, s1.live, s1.tick, s2.tick, s3.tick);
      EnduresOne(o, s3.live, s3.tick);
      EnduresOn(o, s1.live, s1.tick, s3.tick, s3.tick + 1);
    }
  }

  lemma {:induction false} LaunchTerminalDoes(o: Oracle, s: State, id: nat, detached: bool, polls: nat)
    ensures var (outcome, t) := LaunchTerminal(o, s, id, detached, polls);
              Launched(o, s, id, detached, polls, outcome, t)
  {
    hide Endures, Settle, Watched, LaunchTerminal;
    if Began(o, s) {
      BeganDoes(o, s, id, detached, polls);
    } else {
      NotBegunDoes(o, s, id, detached, polls);
    }
  }

  lemma {:induction false} BeganDoes(o: Oracle, s: State, id: nat, detached: bool, polls: nat)
    requires Began(o, s)
    ensures var (outcome, t) := LaunchTerminal(o, s, id, detached, polls);
              Launched(o, s, id, detached, polls, outcome, t)
  {
    hide Endures, Settle, OutcomeFits;
    var s1 := Pass(o, s);
    EnduresOne(o, s.live, s.tick);
    EnduresOne(o, s1.live, s1.tick);
    EnduresOn(o, s.live, s.tick, s1.tick, s1.tick + 1);
    var s2 := NewSession(o, s1, id).1;
    SettleDoes(o, s, s2, id, detached, polls);
    var (outcome, t) := Settle(o, s2, id, detached, polls);
    assert LaunchTerminal(o, s, id, detached, polls) == (outcome, t);
    EnduresLess(o, Pass(o, s1).live, {id}, s2.tick, t.tick);
    EnduresOn(o, s.live, s.tick, s2.tick, t.tick);
  }

  lemma StoppedFits(o: Oracle, s: State, id: nat, detached: bool, polls: nat)
    requires !Began(o, s)
    ensures OutcomeFits(o, s, id, detached, polls, LaunchTerminal(o, s, id, detached, polls).0)
  {
    hide Settle, Stays, Discard;
  }

  lemma {:induction false} DiscardDoes(o: Oracle, s: State, id: nat, detached: bool)
    ensures var t := Discard(o, s, id, detached);
            && t.tick == s.tick + (if detached then 1 else 0) && t.nextId == s.nextId
            && t.records == (if detached && WorksAt(o, s.tick) then s.records - {id} else s.records)
            && t.live == Endures(o, s.live, s.tick, t.tick)
  {
    hide Endures;
    EnduresNothing(o, s.live, s.tick);
    EnduresOne(o, s.live, s.tick);
  }

  /** The states before the first and before the second effect that may stop a launch. */
  lemma {:induction false} PassesEndure(o: Oracle, s: State)
    ensures var s1, s2 := Pass(o, s), Pass(o, Pass(o, s));
            && s1.records == s2.records == s.records && s1.nextId == s2.nextId == s.nextId
            && s1.tick == s.tick + 1 && s2.tick == s.tick + 2 && s1.live == s.live - o(s.tick).ended
            && s1.live == Endures(o, s.live, s.tick, s1.tick) && s2.live == Endures(o, s.live, s.tick, s2.tick)
  {
    hide Endures;
    EnduresOne(o, s.live, s.tick);
    EnduresOne(o, Pass(o, s).live, s.tick + 1);
    EnduresOn(o, s.live, s.tick, s.tick + 1, s.tick + 2);
  }

  /** A launch that stops at `last` without a terminal. */
  lemma {:induction false} StoppedDoes(
    o: Oracle, s: State, last: State, id: nat, detached: bool, polls: nat, outcome: Outcome
  )
    requires !Began(o, s) && OutcomeFits(o, s, id, detached, polls, outcome)
    requires last.records == s.records && last.nextId == s.nextId
    requires last.tick == s.tick + if outcome == Failed(Launching) then 2 else 1
    requires last.live == Endures(o, s.live, s.tick, last.tick)
    ensures Launched(o, s, id, detached, polls, outcome, Discard(o, last, id, detached))
  {
    hide Endures, OutcomeFits, Began, Discard;
    DiscardDoes(o, last, id, detached);
    EnduresOn(o, s.live, s.tick, last.tick, Discard(o, last, id, detached).tick);
  }

  lemma {:induction false} NotBegunDoes(o: Oracle, s: State, id: nat, detached: bool, polls: nat)
    requires !Began(o, s)
    ensures var (outcome, t) := LaunchTerminal(o, s, id, detached, polls);
            Launched(o, s, id, detached, polls, outcome, t)
  {
    hide Endures, Settle, Stays, Discard, OutcomeFits, Launched, Pass;
    StoppedFits(o, s, id, detached, polls);
    PassesEndure(o, s);
    var outcome := LaunchTerminal(o, s, id, detached, polls).0;
    var last := if outcome == Failed(Launching) then Pass(o, Pass(o, s)) else Pass(o, s);
    assert LaunchTerminal(o, s, id, detached, polls) == (outcome, Discard(o, last, id, detached));
    StoppedDoes(o, s, last, id, detached, polls, outcome);
  }

  /** The state in which a new record's terminal is launched. */
  function WithRecord(o: Oracle, s: State, workspace: string): State {
    State(s.records[s.nextId := Record(workspace, 0)], s.live - o(s.tick).ended, s.nextId + 1, s.tick + 1)
  }

  /** What a caller is told of a launch. */
  predicate Tells(reply: Reply, id: nat, outcome: Outcome) {
    match outcome
    case Opened => reply == Running(id, false)
    case ExitedEarly => reply == Running(id, true)
    case Failed(stage) => reply == LaunchFailed(id, stage)
  }

  /** A record is made first, for the next number, and the terminal under it. */
  ghost predicate SessionStarted(
    o: Oracle, s: State, workspace: string, detached: bool, polls: nat, reply: Reply, t: State
  ) {
    if WorksAt(o, s.tick) then
      exists outcome ::
        Tells(reply, s.nextId, outcome)
        && Launched(o, WithRecord(o, s, workspace), s.nextId, detached, polls, outcome, t)
    else reply == NothingMade && t == State(s.records, s.live - o(s.tick).ended, s.nextId, s.tick + 1)
  }

  lemma StartDoes(o: Oracle, s: State, workspace: string, detached: bool, polls: nat)
    ensures var (reply, t) := StartSession(o, s, workspace, detached, polls);
            SessionStarted(o, s, workspace, detached, polls, reply, t)
  {
    hide LaunchTerminal, Launched;
    var (created, s1) := Create(o, s, workspace);
    if created {
      LaunchTerminalDoes(o, s1, s.nextId, detached, polls);
      assert Tells(StartSession(o, s, workspace, detached, polls).0, s.nextId,
                   LaunchTerminal(o, s1, s.nextId, detached, polls).0);
    }
  }

  /**
   * `LaunchWorkspaceSession`: nothing without the regenerated files; otherwise a detached session is started, and one
   * that exited at once is reported as failed and its record dropped, if the delete works.
   */
  ghost predicate WorkspaceLaunched(o: Oracle, s: State, workspace: string, polls: nat, reply: Reply, t: State) {
    var s1 := State(s.records, s.live - o(s.tick).ended, s.nextId, s.tick + 1);
    if !WorksAt(o, s.tick) then reply == NothingMade && t == s1
    else
      exists made, s2 ::
        && SessionStarted(o, s1, workspace, true, polls, made, s2)
        && if made == Running(s.nextId, true) then
             && reply == LaunchFailed(s.nextId, Exiting)
             && t == State(if WorksAt(o, s2.tick) then s2.records - {s.nextId} else s2.records,
                           s2.live - o(s2.tick).ended, s2.nextId, s2.tick + 1)
           else reply == made && t == s2
  }

  lemma LaunchDoes(o: Oracle, s: State, workspace: string, polls: nat)
    ensures var (reply, t) := LaunchWorkspaceSession(o, s, workspace, polls);
            WorkspaceLaunched(o, s, workspace, polls, reply, t)
  {
    hide StartSession, SessionStarted;
    var (generated, s1) := Other(o, s);
    if generated {
      StartDoes(o, s1, workspace, true, polls);
      var (made, s2) := StartSession(o, s1, workspace, true, polls);
      StartNames(o, s1, workspace, true, polls);
      assert SessionStarted(o, s1, workspace, true, polls, made, s2);
    }
  }

  lemma StartNames(o: Oracle, s: State, workspace: string, detached: bool, polls: nat)
    ensures var reply := StartSession(o, s, workspace, detached, polls).0;
            reply.Running? ==> reply.id == s.nextId
  {
    hide LaunchTerminal;
  }

  /** Nothing fails, nothing ends on its own, and every probe is answered. */
  ghost predicate Smooth(o: Oracle) { forall i: nat :: o(i) == Event(false, false, false, {}) }

  /** A launch in which nothing goes wrong: below the cap a running session with its record, at the cap neither. */
  lemma {:induction false} SmoothLaunch(o: Oracle, s: State, workspace: string, polls: nat)
    requires Smooth(o) && Inv(s)
    ensures var (reply, t) := LaunchWorkspaceSession(o, s, workspace, polls);
            if |s.live| < 8 then
              && reply == Running(s.nextId, false) && t.live == s.live + {s.nextId}
              && t.records == s.records[s.nextId := Record(workspace, 0)]
            else reply == LaunchFailed(s.nextId, Capped) && t.live == s.live && t.records == s.records
  {
    hide LaunchTerminal, Launched, Inv;
    var s1 := Pass(o, s);
    var s2 := Create(o, s1, workspace).1;
    assert s2.live == s.live;
    LaunchTerminalDoes(o, s2, s.nextId, true, polls);
    SmoothTerminal(o, s2, s.nextId, polls, LaunchTerminal(o, s2, s.nextId, true, polls).0,
                   LaunchTerminal(o, s2, s.nextId, true, polls).1);
    NextIsNew(s);
    assert s2.records - {s.nextId} == s.records;
  }

  lemma NextIsNew(s: State)
    requires Inv(s)
    ensures s.nextId !in s.records
  {
  }

  lemma {:induction false} SmoothTerminal(o: Oracle, s: State, id: nat, polls: nat, outcome: Outcome, t: State)
    requires Smooth(o) && Launched(o, s, id, true, polls, outcome, t)
    ensures if |s.live| < 8 then outcome.Opened? && t.live == s.live + {id} && t.records == s.records
            else outcome == Failed(Capped) && t.live == s.live && t.records == s.records - {id}
  {
    assert s.live - o(s.tick).ended == s.live;
    assert forall i: nat :: WorksAt(o, i);
    assert Endures(o, s.live, s.tick, t.tick) == s.live && Endures(o, {id}, s.tick + 2, t.tick) == {id};
  }

  // ---- Resuming ----

  /**
   * A session found running is attached to and touched, and no record changes. One found gone is launched again, under
   * the fresh agent id if there is one, which is recorded first. Without an answer, or a way to launch, nothing
   * happens.
   */
  ghost predicate Resumed(
    o: Oracle, s: State, id: nat, launchable: bool, freshId: Option<nat>, polls: nat, reply: Reply, t: State
  ) {
    if id !in s.records then reply == Refused && t == s
    else
      var live := s.live - o(s.tick).ended;
      if o(s.tick).dead || o(s.tick).mute || (id !in live && !launchable) then
        reply == Refused && t == State(s.records, live, s.nextId, s.tick + 1)
      else if id in live then
        && reply == (if WorksAt(o, s.tick + 1) && WorksAt(o, s.tick + 2) then Running(id, false) else Refused)
        && t.records == s.records && t.nextId == s.nextId && t.live == Endures(o, s.live, s.tick, t.tick)
        && t.tick == s.tick + (if WorksAt(o, s.tick + 1) then 3 else 2)
      else if freshId.Some? && !WorksAt(o, s.tick + 1) then
        reply == Refused && t == State(s.records, live - o(s.tick + 1).ended, s.nextId, s.tick + 2)
      else
        exists outcome, s1 ::
          && Tells(reply, id, outcome) && Launched(o, s1, id, false, polls, outcome, t)
          && s1 == if freshId.None? then State(s.records, live, s.nextId, s.tick + 1)
                   else State(s.records[id := Record(s.records[id].workspace, freshId.value)],
                              live - o(s.tick + 1).ended, s.nextId, s.tick + 2)
  }

  lemma {:induction false} ResumeDoes(o: Oracle, s: State, id: nat, launchable: bool, freshId: Option<nat>, polls: nat)
    ensures var (reply, t) := ResumeSession(o, s, id, launchable, freshId, polls);
            Resumed(o, s, id, launchable, freshId, polls, reply, t)
  {
    hide LaunchTerminal, Launched, Endures, Relaunch;
    if id in s.records {
      var (answer, s1) := Probe(o, s, id);
      if answer == Some(true) {
        EnduresOne(o, s.live, s.tick);
        EnduresOne(o, s1.live, s1.tick);
        EnduresOn(o, s.live, s.tick, s1.tick, s1.tick + 1);
        EnduresOne(o, Pass(o, s1).live, s1.tick + 1);
        EnduresOn(o, s.live, s.tick, s1.tick + 1, s1.tick + 2);
      } else if answer.Some? && launchable {
        RelaunchDoes(o, s1, id, freshId, polls);
      }
    }
  }

  lemma {:induction false} RelaunchDoes(o: Oracle, s: State, id: nat, freshId: Option<nat>, polls: nat)
    requires id in s.records
    ensures var (reply, t) := Relaunch(o, s, id, freshId, polls);
            if freshId.Some? && !WorksAt(o, s.tick) then
              reply == Refused && t == State(s.records, s.live - o(s.tick).ended, s.nextId, s.tick + 1)
            else
              exists outcome, s1 ::
                && Tells(reply, id, outcome) && Launched(o, s1, id, false, polls, outcome, t)
                && s1 == if freshId.None? then s
                         else State(s.records[id := Record(s.records[id].workspace, freshId.value)],
                                    s.live - o(s.tick).ended, s.nextId, s.tick + 1)
  {
    hide LaunchTerminal, Launched;
    var s1 := if freshId.Some? then SetAgentId(o, s, id, freshId.value).1 else s;
    if freshId.None? || WorksAt(o, s.tick) {
      LaunchTerminalDoes(o, s1, id, false, polls);
      var (outcome, t) := LaunchTerminal(o, s1, id, false, polls);
      assert Relaunch(o, s, id, freshId, polls) == (Report(id, outcome), t);
      assert Tells(Report(id, outcome), id, outcome) && Launched(o, s1, id, false, polls, outcome, t);
    }
  }
}
