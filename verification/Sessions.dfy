/**
 * Agent session records and live tmux sessions (internal/app/agent_workspaces_service.go). Every effect may fail, the
 * process may die before any effect, and a session may end on its own at any moment.
 */
module Sessions {
  import opened Text

  const MAX_CONCURRENT := 8

  /** A record; its number also names its tmux session, which no other record ever uses. */
  datatype Record = Record(workspace: string, agentId: nat)

  datatype State = State(records: map<nat, Record>, live: set<nat>, nextId: nat, tick: nat)

  /**
   * What happens at one step: the process is dead, the effect fails, tmux leaves has-session unanswered, sessions end.
   */
  datatype Event = Event(dead: bool, fails: bool, mute: bool, ended: set<nat>)

  type Oracle = nat -> Event

  ghost predicate DeathIsFinal(o: Oracle) { forall i: nat :: o(i).dead ==> o(i + 1).dead }

  /** Death is final, and has-session always answers, truthfully. */
  ghost predicate Truthful(o: Oracle) { DeathIsFinal(o) && forall i: nat :: !o(i).mute }

  function Pass(o: Oracle, s: State): State { s.(tick := s.tick + 1, live := s.live - o(s.tick).ended) }

  /** The effect attempted at this step succeeds. */
  predicate Good(e: Event) { !e.dead && !e.fails }

  predicate Works(o: Oracle, s: State) { Good(o(s.tick)) }

  // ---- Single effects: whether each succeeded, and the state after it ----

  function Create(o: Oracle, s: State, workspace: string): (bool, State) {
    var t := Pass(o, s);
    if Works(o, s) then (true, t.(records := t.records[t.nextId := Record(workspace, 0)], nextId := t.nextId + 1))
    else (false, t)
  }

  function Delete(o: Oracle, s: State, id: nat): (bool, State) {
    var t := Pass(o, s);
    if Works(o, s) then (true, t.(records := t.records - {id})) else (false, t)
  }

  function NewSession(o: Oracle, s: State, id: nat): (bool, State) {
    var t := Pass(o, s);
    if Works(o, s) then (true, t.(live := t.live + {id})) else (false, t)
  }

  function Kill(o: Oracle, s: State, id: nat): (bool, State) {
    var t := Pass(o, s);
    if Works(o, s) then (true, t.(live := t.live - {id})) else (false, t)
  }

  function SetAgentId(o: Oracle, s: State, id: nat, agentId: nat): (bool, State) {
    var t := Pass(o, s);
    if Works(o, s) && id in t.records then (true, t.(records := t.records[id := t.records[id].(agentId := agentId)]))
    else (Works(o, s), t)
  }

  /** An effect on neither records nor sessions, or a query. */
  function Other(o: Oracle, s: State): (bool, State) { (Works(o, s), Pass(o, s)) }

  /** `HasSession`: no answer, or a true one. */
  function Probe(o: Oracle, s: State, id: nat): (Option<bool>, State) {
    (if o(s.tick).dead || o(s.tick).mute then None else Some(id in Pass(o, s).live), Pass(o, s))
  }

  // ---- launchTerminal ----

  datatype Stage = Counting | Capped | Launching | Touching | Attaching | Exiting

  datatype Outcome = Opened | ExitedEarly | Failed(stage: Stage)

  /** `awaitEarlyExit`: polls until the window closes; no answer counts as gone. */
  function Await(o: Oracle, s: State, id: nat, polls: nat): (bool, State)
    decreases polls
  {
    var (answer, t) := Probe(o, s, id);
    if answer.None? || !answer.value then (true, t)
    else if polls == 0 then (false, t)
    else Await(o, t, id, polls - 1)
  }

  /** `discardDetached`: a detached launch drops its record; whether that worked is not reported. */
  function Discard(o: Oracle, s: State, id: nat, detached: bool): State {
    if detached then Delete(o, s, id).1 else s
  }

  function LaunchTerminal(o: Oracle, s: State, id: nat, detached: bool, polls: nat): (Outcome, State) {
    var (counted, s1) := Other(o, s);
    if !counted then (Failed(Counting), Discard(o, s1, id, detached))
    else if |s1.live| >= MAX_CONCURRENT then (Failed(Capped), Discard(o, s1, id, detached))
    else
      var (launched, s2) := NewSession(o, s1, id);
      if !launched then (Failed(Launching), Discard(o, s2, id, detached))
      else
        Settle(o, s2, id, detached, polls)
  }

  /** What follows the creation of the terminal: record it as opened, wait for an early exit, attach. */
  function Settle(o: Oracle, s: State, id: nat, detached: bool, polls: nat): (Outcome, State) {
    var (touched, s1) := Other(o, s);
    if !touched then (Failed(Touching), s1)
    else
      var (exited, s2) := Await(o, s1, id, polls);
      if exited then (ExitedEarly, s2)
      else if detached then (Opened, s2)
      else
        var (attached, s3) := Other(o, s2);
        (if attached then Opened else Failed(Attaching), s3)
  }

  // ---- The service's calls ----

  datatype Call =
    | Launch(workspace: string, polls: nat)        // LaunchWorkspaceSession
    | Start(workspace: string, detached: bool, polls: nat)  // StartSession, StartScheduledSession
    // launchable: the workspace is valid and its command resolves; a fresh agent id when nothing can be resumed
    | Resume(id: nat, launchable: bool, freshId: Option<nat>, polls: nat)
    | Close(id: nat)
    | DeleteSession(id: nat)
    | DeleteWorkspace(workspace: string)

  datatype Reply =
    | Running(id: nat, exited: bool)
    | NothingMade
    | LaunchFailed(id: nat, stage: Stage)
    | Refused
    | Finished(worked: bool)

  function Report(id: nat, outcome: Outcome): Reply {
    if outcome.Failed? then LaunchFailed(id, outcome.stage) else Running(id, outcome.ExitedEarly?)
  }

  /** `startSession`: the record first, then the terminal. */
  function StartSession(o: Oracle, s: State, workspace: string, detached: bool, polls: nat): (Reply, State) {
    var (created, s1) := Create(o, s, workspace);
    if !created then (NothingMade, s1)
    else
      var id := s.nextId;
      var (outcome, s2) := LaunchTerminal(o, s1, id, detached, polls);
      (Report(id, outcome), s2)
  }

  /** `LaunchWorkspaceSession`: regenerate, start detached, and drop the record of a session that exited at once. */
  function LaunchWorkspaceSession(o: Oracle, s: State, workspace: string, polls: nat): (Reply, State) {
    var (generated, s1) := Other(o, s);
    if !generated then (NothingMade, s1)
    else
      var (reply, s2) := StartSession(o, s1, workspace, true, polls);
      if reply.Running? && reply.exited then (LaunchFailed(reply.id, Exiting), Delete(o, s2, reply.id).1)
      else (reply, s2)
  }

  /**
   * `ResumeSession`: attach if alive, otherwise relaunch under a fresh agent id where the old one cannot be resumed.
   */
  function ResumeSession(
    o: Oracle, s: State, id: nat, launchable: bool, freshId: Option<nat>, polls: nat
  ): (Reply, State) {
    if id !in s.records then (Refused, s)
    else
      var (answer, s1) := Probe(o, s, id);
      if answer.None? then (Refused, s1)
      else if answer.value then
        var (attached, s2) := Other(o, s1);
        if !attached then (Refused, s2)
        else
          var (touched, s3) := Other(o, s2);
          (if touched then Running(id, false) else Refused, s3)
      else if !launchable then (Refused, s1)
      else Relaunch(o, s1, id, freshId, polls)
  }

  function Relaunch(o: Oracle, s: State, id: nat, freshId: Option<nat>, polls: nat): (Reply, State) {
    var (recorded, s1) := if freshId.Some? then SetAgentId(o, s, id, freshId.value) else (true, s);
    if !recorded then (Refused, s1)
    else
      var (outcome, s2) := LaunchTerminal(o, s1, id, false, polls);
      (Report(id, outcome), s2)
  }

  function CloseSession(o: Oracle, s: State, id: nat): (Reply, State) {
    if id !in s.records then (Refused, s) else var (killed, s1) := Kill(o, s, id); (Finished(killed), s1)
  }

  /** `DeleteSession`: the session first, because its name lives on the record. */
  function DeleteOne(o: Oracle, s: State, id: nat): (Reply, State) {
    if id !in s.records then (Refused, s)
    else
      var (killed, s1) := Kill(o, s, id);
      if !killed then (Finished(false), s1) else var (deleted, s2) := Delete(o, s1, id); (Finished(deleted), s2)
  }

  function KillAll(o: Oracle, s: State, ids: seq<nat>): (bool, State)
    decreases |ids|
  {
    if ids == [] then (true, s)
    else
      var (killed, s1) := Kill(o, s, ids[0]);
      if !killed then (false, s1) else KillAll(o, s1, ids[1..])
  }

  /** The records of a workspace, as listed. */
  ghost predicate Lists(s: State, workspace: string, ids: seq<nat>) {
    forall id :: id in ids <==> id in s.records && s.records[id].workspace == workspace
  }

  function WithoutWorkspace(records: map<nat, Record>, workspace: string): map<nat, Record> {
    map id | id in records && records[id].workspace != workspace :: records[id]
  }

  /** `DeleteWorkspace`: every terminal, then the directory, then the records in one transaction. */
  function DeleteAll(o: Oracle, s: State, workspace: string, ids: seq<nat>): (Reply, State) {
    var (listed, s1) := Other(o, s);
    if !listed then (Finished(false), s1)
    else
      var (killed, s2) := KillAll(o, s1, ids);
      if !killed then (Finished(false), s2)
      else
        var (removed, s3) := Other(o, s2);
        if !removed then (Finished(false), s3)
        else
          var t := Pass(o, s3);
          if Works(o, s3) then (Finished(true), t.(records := WithoutWorkspace(t.records, workspace)))
          else (Finished(false), t)
  }

  // ---- What every call keeps ----

  predicate Inv(s: State) {
    && s.live <= s.records.Keys && |s.live| <= MAX_CONCURRENT && forall id :: id in s.records ==> id < s.nextId
  }

  lemma PassKeeps(o: Oracle, s: State)
    requires Inv(s)
    ensures Inv(Pass(o, s)) && Pass(o, s).live <= s.live
  {
  }

  /** A record may go once its session is not live. */
  lemma DeleteKeeps(o: Oracle, s: State, id: nat)
    requires Inv(s) && (id !in s.live || !Works(o, s))
    ensures Inv(Delete(o, s, id).1)
  {
  }

  lemma KillKeeps(o: Oracle, s: State, id: nat)
    requires Inv(s)
    ensures Inv(Kill(o, s, id).1) && Kill(o, s, id).1.live <= s.live && Kill(o, s, id).1.records == s.records
    ensures Kill(o, s, id).0 ==> id !in Kill(o, s, id).1.live
  {
  }

  lemma NewSessionKeeps(o: Oracle, s: State, id: nat)
    requires Inv(s) && id in s.records && |s.live| < MAX_CONCURRENT
    ensures Inv(NewSession(o, s, id).1)
    ensures NewSession(o, s, id).1.live <= s.live + {id}
              && (!NewSession(o, s, id).0 ==> NewSession(o, s, id).1.live <= s.live)
  {
  }

  /**
   * Polling changes nothing but what ends on its own; a session that is still live reads as gone only for want of an
   * answer.
   */
  lemma {:induction false} AwaitKeeps(o: Oracle, s: State, id: nat, polls: nat)
    requires Inv(s)
    ensures var (exited, t) := Await(o, s, id, polls);
            && Inv(t) && t.records == s.records && t.nextId == s.nextId && t.live <= s.live
            && (exited && id in t.live ==> Unanswered(o, t))
            && (!exited ==> id in t.live)
    decreases polls
  {
    PassKeeps(o, s);
    if Probe(o, s, id).0 == Some(true) && polls > 0 {
      AwaitKeeps(o, Pass(o, s), id, polls - 1);
    }
  }

  /** The probe just made went unanswered. */
  predicate Unanswered(o: Oracle, s: State) { s.tick > 0 && (o(s.tick - 1).dead || o(s.tick - 1).mute) }

  lemma DiscardKeeps(o: Oracle, s: State, id: nat, detached: bool)
    requires Inv(s) && id in s.records && id !in s.live
    ensures var t := Discard(o, s, id, detached);
            && Inv(t) && t.nextId == s.nextId && id !in t.live
            && (if detached then id !in t.records <==> Works(o, s) else id in t.records)
  {
  }

  lemma {:induction false} SettleKeeps(o: Oracle, s: State, id: nat, detached: bool, polls: nat)
    requires Inv(s) && id in s.records
    ensures var (outcome, t) := Settle(o, s, id, detached, polls);
            && Inv(t) && t.nextId == s.nextId && id in t.records
            && (outcome.ExitedEarly? && id in t.live ==> Unanswered(o, t))
            && (outcome.Failed? && detached ==> outcome.stage.Touching?)
            && (outcome.Failed? ==> outcome.stage.Touching? || outcome.stage.Attaching?)
  {
    PassKeeps(o, s);
    var (touched, s1) := Other(o, s);
    if touched {
      AwaitKeeps(o, s1, id, polls);
      PassKeeps(o, Await(o, s1, id, polls).1);
    }
  }

  /** Where a launch fails before its terminal runs, and at which step its record is then dropped. */
  predicate Dropped(o: Oracle, start: nat, stage: Stage) {
    match stage
    case Counting => Good(o(start + 1))
    case Capped => Good(o(start + 1))
    case Launching => Good(o(start + 2))
    case _ => false
  }

  lemma {:induction false} LaunchTerminalKeeps(o: Oracle, s: State, id: nat, detached: bool, polls: nat)
    requires Inv(s) && id in s.records && id !in s.live
    ensures var (outcome, t) := LaunchTerminal(o, s, id, detached, polls);
            && Inv(t) && t.nextId == s.nextId
            && (outcome.ExitedEarly? && id in t.live ==> Unanswered(o, t))
            && (id !in t.records <==> detached && outcome.Failed? && Dropped(o, s.tick, outcome.stage))
            && (outcome.Failed? ==> !outcome.stage.Exiting? && (detached ==> !outcome.stage.Attaching?))
  {
    hide Settle, Discard;
    PassKeeps(o, s);
    var (counted, s1) := Other(o, s);
    if counted && |s1.live| < MAX_CONCURRENT {
      NewSessionKeeps(o, s1, id);
      var (launched, s2) := NewSession(o, s1, id);
      if launched {
        SettleKeeps(o, s2, id, detached, polls);
      } else {
        DiscardKeeps(o, s2, id, detached);
      }
    } else {
      DiscardKeeps(o, s1, id, detached);
    }
  }

  lemma {:induction false} AwaitSpares(o: Oracle, s: State, id: nat, polls: nat)
    ensures Await(o, s, id, polls).1.records == s.records
    decreases polls
  {
    if polls > 0 {
      AwaitSpares(o, Pass(o, s), id, polls - 1);
    }
  }

  /** A launch touches no record but, when detached, its own. */
  lemma LaunchTerminalSpares(o: Oracle, s: State, id: nat, detached: bool, polls: nat)
    ensures var t := LaunchTerminal(o, s, id, detached, polls).1;
            t.records == s.records || (detached && t.records == s.records - {id})
  {
    forall t: State ensures Await(o, t, id, polls).1.records == t.records {
      AwaitSpares(o, t, id, polls);
    }
  }

  lemma CreateKeeps(o: Oracle, s: State, workspace: string)
    requires Inv(s)
    ensures var (created, t) := Create(o, s, workspace);
            Inv(t) && (created ==> s.nextId in t.records && s.nextId !in t.live && t.nextId == s.nextId + 1)
  {
  }

  lemma {:induction false} StartKeeps(o: Oracle, s: State, workspace: string, detached: bool, polls: nat)
    requires Inv(s)
    ensures Inv(StartSession(o, s, workspace, detached, polls).1)
  {
    hide LaunchTerminal;
    CreateKeeps(o, s, workspace);
    if Create(o, s, workspace).0 {
      LaunchTerminalKeeps(o, Create(o, s, workspace).1, s.nextId, detached, polls);
    }
  }

  /** The state in which the wait asks its last question. */
  function EndingPoll(o: Oracle, s: State, id: nat, polls: nat): (w: State)
    ensures Await(o, s, id, polls) == (Probe(o, w, id).0 != Some(true), Probe(o, w, id).1)
    decreases polls
  {
    if Probe(o, s, id).0 != Some(true) || polls == 0 then s else EndingPoll(o, Probe(o, s, id).1, id, polls - 1)
  }

  /** Where the wait begins, if counting the sessions, creating the terminal and recording it all work. */
  function WaitBegins(o: Oracle, s: State, id: nat): State { Pass(o, NewSession(o, Pass(o, s), id).1) }

  lemma ExitIsSeenByPoll(o: Oracle, s: State, id: nat, detached: bool, polls: nat)
    ensures var w := EndingPoll(o, WaitBegins(o, s, id), id, polls);
            var (outcome, t) := LaunchTerminal(o, s, id, detached, polls);
            && (outcome.ExitedEarly? <==>
                 && Good(o(s.tick)) && |Pass(o, s).live| < MAX_CONCURRENT && Good(o(s.tick + 1)) && Good(o(s.tick + 2))
                 && Probe(o, w, id).0 != Some(true))
            && (outcome.ExitedEarly? ==> t == Pass(o, w))
  {
  }

  /** The last poll of a detached launch. */
  function LastPoll(o: Oracle, s: State, workspace: string, polls: nat): State {
    EndingPoll(o, WaitBegins(o, Create(o, Pass(o, s), workspace).1, s.nextId), s.nextId, polls)
  }

  /** Regenerating, creating the record, counting, creating the terminal and recording it all work, below the cap. */
  predicate ReachesWait(o: Oracle, s: State) {
    && Good(o(s.tick)) && Good(o(s.tick + 1)) && Good(o(s.tick + 2)) && Good(o(s.tick + 3)) && Good(o(s.tick + 4))
    && |Pass(o, Pass(o, Pass(o, s))).live| < MAX_CONCURRENT
  }

  /** The launch of a new record's terminal reports an early exit. */
  predicate Exits(o: Oracle, s: State, workspace: string, polls: nat) {
    var s1 := Other(o, s).1;
    && Other(o, s).0 && Create(o, s1, workspace).0
    && LaunchTerminal(o, Create(o, s1, workspace).1, s.nextId, true, polls).0.ExitedEarly?
  }

  lemma ExitsExactly(o: Oracle, s: State, workspace: string, polls: nat)
    ensures Exits(o, s, workspace, polls) <==>
              ReachesWait(o, s) && Probe(o, LastPoll(o, s, workspace, polls), s.nextId).0 != Some(true)
  {
    hide LaunchTerminal, WaitBegins, EndingPoll;
    var s2 := Create(o, Pass(o, s), workspace).1;
    ExitIsSeenByPoll(o, s2, s.nextId, true, polls);
    assert Pass(o, s2).live == Pass(o, Pass(o, Pass(o, s))).live;
  }

  lemma {:induction false} OtherwiseKeeps(o: Oracle, s: State, workspace: string, polls: nat)
    requires Inv(s) && !Exits(o, s, workspace, polls)
    ensures Inv(LaunchWorkspaceSession(o, s, workspace, polls).1)
  {
    hide LaunchTerminal;
    PassKeeps(o, s);
    var s1 := Other(o, s).1;
    CreateKeeps(o, s1, workspace);
    if Other(o, s).0 && Create(o, s1, workspace).0 {
      LaunchTerminalKeeps(o, Create(o, s1, workspace).1, s.nextId, true, polls);
    }
  }

  lemma {:induction false} ExitDeletes(o: Oracle, s: State, workspace: string, polls: nat)
    requires Inv(s) && Exits(o, s, workspace, polls)
    ensures var t := Pass(o, LastPoll(o, s, workspace, polls));
            && LaunchWorkspaceSession(o, s, workspace, polls).1 == Delete(o, t, s.nextId).1
            && Inv(t) && s.nextId in t.records
  {
    hide LaunchTerminal, WaitBegins, EndingPoll;
    PassKeeps(o, s);
    var s1 := Other(o, s).1;
    CreateKeeps(o, s1, workspace);
    ExitIsSeenByPoll(o, Create(o, s1, workspace).1, s.nextId, true, polls);
    LaunchTerminalKeeps(o, Create(o, s1, workspace).1, s.nextId, true, polls);
  }

  /**
   * The invariant survives a detached launch, with any probe unanswered, unless the launch took that for an exit: it
   * got as far as waiting, the poll that ended the wait went unanswered, the session lived on through it and the
   * clean-up, and the clean-up worked.
   */
  lemma {:induction false} LaunchKeepsExactly(o: Oracle, s: State, workspace: string, polls: nat)
    requires Inv(s) && DeathIsFinal(o)
    ensures var id, w := s.nextId, LastPoll(o, s, workspace, polls);
            Inv(LaunchWorkspaceSession(o, s, workspace, polls).1) <==>
              !(&& ReachesWait(o, s) && o(w.tick).mute && id in Pass(o, w).live
                && id !in o(w.tick + 1).ended && Good(o(w.tick + 1)))
  {
    hide LaunchWorkspaceSession, LastPoll, Exits, ReachesWait;
    ExitsExactly(o, s, workspace, polls);
    if Exits(o, s, workspace, polls) {
      var w := LastPoll(o, s, workspace, polls);
      ExitDeletes(o, s, workspace, polls);
      PassKeeps(o, Pass(o, w));
      assert o(w.tick).dead ==> o(w.tick + 1).dead;
    } else {
      OtherwiseKeeps(o, s, workspace, polls);
    }
  }

  lemma {:induction false} LaunchKeeps(o: Oracle, s: State, workspace: string, polls: nat)
    requires Inv(s) && Truthful(o)
    ensures Inv(LaunchWorkspaceSession(o, s, workspace, polls).1)
  {
    hide LaunchWorkspaceSession;
    LaunchKeepsExactly(o, s, workspace, polls);
  }

  lemma {:induction false} ResumeKeeps(
    o: Oracle, s: State, id: nat, launchable: bool, freshId: Option<nat>, polls: nat
  )
    requires Inv(s)
    ensures Inv(ResumeSession(o, s, id, launchable, freshId, polls).1)
  {
    hide Relaunch;
    if id in s.records {
      PassKeeps(o, s);
      var (answer, s1) := Probe(o, s, id);
      if answer == Some(true) {
        PassKeeps(o, s1);
        PassKeeps(o, Pass(o, s1));
      } else if answer.Some? && launchable {
        RelaunchKeeps(o, s1, id, freshId, polls);
      }
    }
  }

  lemma SetAgentIdKeeps(o: Oracle, s: State, id: nat, agentId: nat)
    requires Inv(s) && id in s.records
    ensures var t := SetAgentId(o, s, id, agentId).1;
            Inv(t) && t.records.Keys == s.records.Keys && t.live <= s.live
  {
    PassKeeps(o, s);
    assert SetAgentId(o, s, id, agentId).1.records.Keys == s.records.Keys;
  }

  lemma {:induction false} RelaunchKeeps(o: Oracle, s: State, id: nat, freshId: Option<nat>, polls: nat)
    requires Inv(s) && id in s.records && id !in s.live
    ensures Inv(Relaunch(o, s, id, freshId, polls).1)
  {
    hide LaunchTerminal, SetAgentId, Inv;
    var (recorded, s1) := if freshId.Some? then SetAgentId(o, s, id, freshId.value) else (true, s);
    if freshId.Some? {
      SetAgentIdKeeps(o, s, id, freshId.value);
    }
    assert id in s1.records.Keys;
    if recorded {
      LaunchTerminalKeeps(o, s1, id, false, polls);
    }
  }

  lemma CloseKeeps(o: Oracle, s: State, id: nat)
    requires Inv(s)
    ensures Inv(CloseSession(o, s, id).1)
  {
    KillKeeps(o, s, id);
  }

  lemma DeleteOneKeeps(o: Oracle, s: State, id: nat)
    requires Inv(s)
    ensures Inv(DeleteOne(o, s, id).1)
  {
    KillKeeps(o, s, id);
    if Kill(o, s, id).0 {
      DeleteKeeps(o, Kill(o, s, id).1, id);
    }
  }

  lemma {:induction false} KillAllKeeps(o: Oracle, s: State, ids: seq<nat>)
    requires Inv(s)
    ensures var (killed, t) := KillAll(o, s, ids);
            && Inv(t) && t.live <= s.live && t.records == s.records
            && (killed ==> forall id :: id in ids ==> id !in t.live)
    decreases |ids|
  {
    if ids != [] {
      KillKeeps(o, s, ids[0]);
      if Kill(o, s, ids[0]).0 {
        KillAllKeeps(o, Kill(o, s, ids[0]).1, ids[1..]);
      }
    }
  }

  lemma {:induction false} DeleteAllKeeps(o: Oracle, s: State, workspace: string, ids: seq<nat>)
    requires Inv(s) && Lists(s, workspace, ids)
    ensures Inv(DeleteAll(o, s, workspace, ids).1)
  {
    hide KillAll;
    PassKeeps(o, s);
    var (listed, s1) := Other(o, s);
    if listed {
      KillAllKeeps(o, s1, ids);
      var (killed, s2) := KillAll(o, s1, ids);
      if killed {
        PassKeeps(o, s2);
        PassKeeps(o, Pass(o, s2));
      }
    }
  }

  // ---- Every run ----

  /** One serialised call, against its own course of events; a call after a death is made by a restarted process. */
  function Perform(o: Oracle, s: State, call: Call, ids: seq<nat>): (Reply, State) {
    var t := s.(tick := 0);
    match call
    case Launch(workspace, polls) => LaunchWorkspaceSession(o, t, workspace, polls)
    case Start(workspace, detached, polls) => StartSession(o, t, workspace, detached, polls)
    case Resume(id, launchable, freshId, polls) => ResumeSession(o, t, id, launchable, freshId, polls)
    case Close(id) => CloseSession(o, t, id)
    case DeleteSession(id) => DeleteOne(o, t, id)
    case DeleteWorkspace(workspace) => DeleteAll(o, t, workspace, ids)
  }

  datatype Turn = Turn(call: Call, ids: seq<nat>, oracle: Oracle)

  ghost predicate Proper(s: State, turns: seq<Turn>)
    decreases |turns|
  {
    turns != [] ==>
      && (turns[0].call.Launch? ==> Truthful(turns[0].oracle))
      && (turns[0].call.DeleteWorkspace? ==> Lists(s, turns[0].call.workspace, turns[0].ids))
      && Proper(Perform(turns[0].oracle, s, turns[0].call, turns[0].ids).1, turns[1..])
  }

  function After(s: State, turns: seq<Turn>): State
    decreases |turns|
  {
    if turns == [] then s else After(Perform(turns[0].oracle, s, turns[0].call, turns[0].ids).1, turns[1..])
  }

  lemma {:induction false} CallKeeps(o: Oracle, s: State, call: Call, ids: seq<nat>)
    requires Inv(s) && (call.Launch? ==> Truthful(o))
    requires call.DeleteWorkspace? ==> Lists(s, call.workspace, ids)
    ensures Inv(Perform(o, s, call, ids).1)
  {
    hide LaunchWorkspaceSession, StartSession, ResumeSession, DeleteAll, Truthful;
    var t := s.(tick := 0);
    match call {
      case Launch(workspace, polls) => LaunchKeeps(o, t, workspace, polls);
      case Start(workspace, detached, polls) => StartKeeps(o, t, workspace, detached, polls);
      case Resume(id, launchable, freshId, polls) => ResumeKeeps(o, t, id, launchable, freshId, polls);
      case Close(id) => CloseKeeps(o, t, id);
      case DeleteSession(id) => DeleteOneKeeps(o, t, id);
      case DeleteWorkspace(workspace) => DeleteAllKeeps(o, t, workspace, ids);
    }
  }

  /**
   * Over every run of serialised calls, with failures, deaths and sessions ending at any point: every live session has
   * a record, and no more than MAX_CONCURRENT are ever live.
   */
  lemma {:induction false} LiveSessionsHaveRecords(s: State, turns: seq<Turn>)
    requires Inv(s) && Proper(s, turns)
    ensures Inv(After(s, turns))
    decreases |turns|
  {
    hide Perform, Truthful, Inv;
    if turns != [] {
      CallKeeps(turns[0].oracle, s, turns[0].call, turns[0].ids);
      LiveSessionsHaveRecords(Perform(turns[0].oracle, s, turns[0].call, turns[0].ids).1, turns[1..]);
    }
  }

  // ---- A launch that failed ----

  predicate Cleared(s: State, id: nat) { id !in s.records && id !in s.live }

  /**
   * Whether a detached launch that reports failure leaves neither record nor session, by what failed. Before the
   * terminal runs, and after an early exit, it depends on the clean-up delete alone. A failed Touch, step 4, has no
   * clean-up.
   */
  lemma {:induction false} FailedLaunchLeavesNothing(o: Oracle, s: State, workspace: string, polls: nat)
    requires Inv(s) && Truthful(o) && LaunchWorkspaceSession(o, s, workspace, polls).0.LaunchFailed?
    ensures var (reply, t) := LaunchWorkspaceSession(o, s, workspace, polls);
            match reply.stage
            case Touching => !Good(o(s.tick + 4)) && reply.id in t.records
            case Exiting => Cleared(t, reply.id) <==> Good(o(LastPoll(o, s, workspace, polls).tick + 1))
            case stage => Cleared(t, reply.id) <==> Dropped(o, s.tick + 2, stage)
  {
    hide LaunchTerminal, WaitBegins, EndingPoll;
    PassKeeps(o, s);
    var s1 := Other(o, s).1;
    CreateKeeps(o, s1, workspace);
    var s2 := Create(o, s1, workspace).1;
    LaunchTerminalKeeps(o, s2, s1.nextId, true, polls);
    LaunchKeeps(o, s, workspace, polls);
    var outcome := LaunchTerminal(o, s2, s1.nextId, true, polls).0;
    if outcome.ExitedEarly? {
      ExitIsSeenByPoll(o, s2, s1.nextId, true, polls);
    } else if outcome.stage.Touching? {
      TouchFailed(o, s2, s1.nextId, true, polls);
    }
  }

  lemma TouchFailed(o: Oracle, s: State, id: nat, detached: bool, polls: nat)
    requires LaunchTerminal(o, s, id, detached, polls).0 == Failed(Touching)
    ensures !Good(o(s.tick + 2))
  {
  }

  /** A launch for the UI keeps its record, as the row to retry from, however it ends. */
  lemma {:induction false} AttachedLaunchKeepsItsRecord(o: Oracle, s: State, workspace: string, polls: nat)
    requires Inv(s) && Create(o, s, workspace).0
    ensures var t := StartSession(o, s, workspace, false, polls).1;
            s.nextId in t.records && forall id :: id in s.records ==> id in t.records
  {
    hide LaunchTerminal;
    CreateKeeps(o, s, workspace);
    LaunchTerminalKeeps(o, Create(o, s, workspace).1, s.nextId, false, polls);
    LaunchTerminalSpares(o, Create(o, s, workspace).1, s.nextId, false, polls);
  }

  const EMPTY := State(map[], {}, 0, 0)

  function OnlyFails(k: nat): Oracle { i => Event(false, i == k, false, {}) }

  function OnlyMute(k: nat): Oracle { i => Event(false, false, i == k, {}) }

  /** Effect 4 of a detached launch is the Touch: failing, it leaves a running session and its record behind. */
  lemma TouchFailureLeavesBoth(workspace: string)
    ensures LaunchWorkspaceSession(OnlyFails(4), EMPTY, workspace, 0)
         == (LaunchFailed(0, Touching), State(map[0 := Record(workspace, 0)], {0}, 1, 5))
  {
  }

  /** Step 5 is the first poll: unanswered, it reads as an exit, and the record of a live session is deleted. */
  lemma UnansweredProbeOrphans(workspace: string)
    ensures LaunchWorkspaceSession(OnlyMute(5), EMPTY, workspace, 0) ==
              (LaunchFailed(0, Exiting), State(map[], {0}, 1, 7))
    ensures Inv(EMPTY) && !Inv(LaunchWorkspaceSession(OnlyMute(5), EMPTY, workspace, 0).1)
  {
  }
}
