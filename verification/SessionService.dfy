/**
 * The session service itself (internal/app/agent_workspaces_service.go): methods that create, touch and delete records
 * and terminals in a fixed order, returning at the first failure. Each is tied to its specification in Sessions.
 */
module SessionService {
  import opened Text
  import E = SessionEffects
  import S = Sessions

  class AgentWorkspacesService {
    const events: S.Oracle
    var records: map<nat, S.Record>
    var live: set<nat>
    var nextId: nat
    var tick: nat

    function Now(): S.State
      reads this
    {
      S.State(records, live, nextId, tick)
    }

    constructor (events: S.Oracle)
      ensures this.events == events && Now() == S.EMPTY
    {
      this.events := events;
      records, live, nextId, tick := map[], {}, 0, 0;
    }

    // ---- Single effects ----

    /** Time passes: some sessions end, and the next effect works or not. */
    method Attempt() returns (works: bool)
      modifies this
      ensures (works, Now()) == S.Other(events, old(Now()))
    {
      works := !events(tick).dead && !events(tick).fails;
      live := live - events(tick).ended;
      tick := tick + 1;
    }

    method HasSession(id: nat) returns (answer: Option<bool>)
      modifies this
      ensures (answer, Now()) == S.Probe(events, old(Now()), id)
    {
      answer := if events(tick).dead || events(tick).mute then None else Some(id in live - events(tick).ended);
      live := live - events(tick).ended;
      tick := tick + 1;
    }

    method Create(workspace: string) returns (created: bool)
      modifies this
      ensures (created, Now()) == S.Create(events, old(Now()), workspace)
    {
      created := Attempt();
      if created {
        records := records[nextId := S.Record(workspace, 0)];
        nextId := nextId + 1;
      }
    }

    method Delete(id: nat) returns (deleted: bool)
      modifies this
      ensures (deleted, Now()) == S.Delete(events, old(Now()), id)
    {
      deleted := Attempt();
      if deleted {
        records := records - {id};
      }
    }

    method NewSession(id: nat) returns (made: bool)
      modifies this
      ensures (made, Now()) == S.NewSession(events, old(Now()), id)
    {
      made := Attempt();
      if made {
        live := live + {id};
      }
    }

    method KillSession(id: nat) returns (killed: bool)
      modifies this
      ensures (killed, Now()) == S.Kill(events, old(Now()), id)
    {
      killed := Attempt();
      if killed {
        live := live - {id};
      }
    }

    method SetAgentId(id: nat, agentId: nat) returns (recorded: bool)
      modifies this
      ensures (recorded, Now()) == S.SetAgentId(events, old(Now()), id, agentId)
    {
      recorded := Attempt();
      if recorded && id in records {
        records := records[id := records[id].(agentId := agentId)];
      }
    }

    // ---- Launching ----

    method AwaitEarlyExit(id: nat, polls: nat) returns (exited: bool)
      modifies this
      ensures (exited, Now()) == S.Await(events, old(Now()), id, polls)
      ensures !exited <==> id in old(live) && E.Watched(events, old(tick), polls + 1, id)
      ensures records == old(records) && live == E.Endures(events, old(live), old(tick), tick)
      ensures S.Inv(old(Now())) ==> S.Inv(Now())
    {
      ghost var before := Now();
      E.AwaitDoes(events, before, id, polls);
      if S.Inv(before) {
        S.AwaitKeeps(events, before, id, polls);
      }
      var left: nat := polls;
      while true
        invariant left <= polls
        invariant S.Await(events, Now(), id, left) == S.Await(events, old(Now()), id, polls)
        decreases left
      {
        var answer := HasSession(id);
        if answer.None? || !answer.value {
          return true;
        }
        if left == 0 {
          return false;
        }
        left := left - 1;
      }
    }

    method DiscardDetached(id: nat, detached: bool)
      modifies this
      ensures Now() == S.Discard(events, old(Now()), id, detached)
    {
      if !detached {
        return;
      }
      var _ := Delete(id);
    }

    method LaunchTerminal(id: nat, detached: bool, polls: nat) returns (outcome: S.Outcome)
      modifies this
      ensures (outcome, Now()) == S.LaunchTerminal(events, old(Now()), id, detached, polls)
      ensures E.Launched(events, old(Now()), id, detached, polls, outcome, Now())
      ensures S.Inv(old(Now())) && id in old(records) && id !in old(live) ==> S.Inv(Now())
    {
      ghost var before := Now();
      E.LaunchTerminalDoes(events, before, id, detached, polls);
      if S.Inv(before) && id in records && id !in live {
        S.LaunchTerminalKeeps(events, before, id, detached, polls);
      }
      hide S.Await, S.Discard, S.NewSession;
      var counted := Attempt();
      if !counted {
        DiscardDetached(id, detached);
        return S.Failed(S.Counting);
      }
      if |live| >= S.MAX_CONCURRENT {
        DiscardDetached(id, detached);
        return S.Failed(S.Capped);
      }
      var launched := NewSession(id);
      if !launched {
        DiscardDetached(id, detached);
        return S.Failed(S.Launching);
      }
      var touched := Attempt();
      if !touched {
        return S.Failed(S.Touching);
      }
      var exited := AwaitEarlyExit(id, polls);
      if exited {
        return S.ExitedEarly;
      }
      if !detached {
        var attached := Attempt();
        if !attached {
          return S.Failed(S.Attaching);
        }
      }
      return S.Opened;
    }

    // ---- Calls ----

    method StartSession(workspace: string, detached: bool, polls: nat) returns (reply: S.Reply)
      modifies this
      ensures (reply, Now()) == S.StartSession(events, old(Now()), workspace, detached, polls)
      ensures E.SessionStarted(events, old(Now()), workspace, detached, polls, reply, Now())
      ensures S.Inv(old(Now())) ==> S.Inv(Now())
    {
      ghost var before := Now();
      E.StartDoes(events, before, workspace, detached, polls);
      if S.Inv(before) {
        S.StartKeeps(events, before, workspace, detached, polls);
      }
      hide S.LaunchTerminal;
      var id := nextId;
      var created := Create(workspace);
      if !created {
        return S.NothingMade;
      }
      var outcome := LaunchTerminal(id, detached, polls);
      reply := S.Report(id, outcome);
    }

    method LaunchWorkspaceSession(workspace: string, polls: nat) returns (reply: S.Reply)
      modifies this
      ensures (reply, Now()) == S.LaunchWorkspaceSession(events, old(Now()), workspace, polls)
      ensures E.WorkspaceLaunched(events, old(Now()), workspace, polls, reply, Now())
      ensures S.Inv(old(Now())) && S.Truthful(events) ==> S.Inv(Now())
    {
      ghost var before := Now();
      E.LaunchDoes(events, before, workspace, polls);
      if S.Inv(before) && S.Truthful(events) {
        S.LaunchKeeps(events, before, workspace, polls);
      }
      hide S.StartSession;
      var generated := Attempt();
      if !generated {
        return S.NothingMade;
      }
      reply := StartSession(workspace, true, polls);
      if reply.Running? && reply.exited {
        var _ := Delete(reply.id);
        reply := S.LaunchFailed(reply.id, S.Exiting);
      }
    }

    method ResumeSession(id: nat, launchable: bool, freshId: Option<nat>, polls: nat) returns (reply: S.Reply)
      modifies this
      ensures (reply, Now()) == S.ResumeSession(events, old(Now()), id, launchable, freshId, polls)
      ensures E.Resumed(events, old(Now()), id, launchable, freshId, polls, reply, Now())
      ensures S.Inv(old(Now())) ==> S.Inv(Now())
    {
      ghost var before := Now();
      E.ResumeDoes(events, before, id, launchable, freshId, polls);
      if S.Inv(before) {
        S.ResumeKeeps(events, before, id, launchable, freshId, polls);
      }
      hide S.LaunchTerminal;
      if id !in records {
        return S.Refused;
      }
      var answer := HasSession(id);
      if answer.None? {
        return S.Refused;
      }
      if answer.value {
        var attached := Attempt();
        if !attached {
          return S.Refused;
        }
        var touched := Attempt();
        return if touched then S.Running(id, false) else S.Refused;
      }
      if !launchable {
        return S.Refused;
      }
      if freshId.Some? {
        var recorded := SetAgentId(id, freshId.value);
        if !recorded {
          return S.Refused;
        }
      }
      var outcome := LaunchTerminal(id, false, polls);
      reply := S.Report(id, outcome);
    }

    method CloseSession(id: nat) returns (reply: S.Reply)
      modifies this
      ensures (reply, Now()) == S.CloseSession(events, old(Now()), id)
      ensures E.Closed(events, old(Now()), id, reply, Now())
      ensures S.Inv(old(Now())) ==> S.Inv(Now())
    {
      ghost var before := Now();
      E.CloseDoes(events, before, id);
      if S.Inv(before) {
        S.CloseKeeps(events, before, id);
      }
      if id !in records {
        return S.Refused;
      }
      var killed := KillSession(id);
      reply := S.Finished(killed);
    }

    method DeleteSession(id: nat) returns (reply: S.Reply)
      modifies this
      ensures (reply, Now()) == S.DeleteOne(events, old(Now()), id)
      ensures E.Deleted(events, old(Now()), id, reply, Now())
      ensures S.Inv(old(Now())) ==> S.Inv(Now())
    {
      ghost var before := Now();
      E.DeleteOneDoes(events, before, id);
      if S.Inv(before) {
        S.DeleteOneKeeps(events, before, id);
      }
      if id !in records {
        return S.Refused;
      }
      var killed := KillSession(id);
      if !killed {
        return S.Finished(false);
      }
      var deleted := Delete(id);
      reply := S.Finished(deleted);
    }

    /** `ids` is what listing the workspace's records returns. */
    method DeleteWorkspace(workspace: string, ids: seq<nat>) returns (reply: S.Reply)
      modifies this
      ensures (reply, Now()) == S.DeleteAll(events, old(Now()), workspace, ids)
      ensures E.WorkspaceDeleted(events, old(Now()), workspace, ids, reply, Now())
      ensures S.Inv(old(Now())) && S.Lists(old(Now()), workspace, ids) ==> S.Inv(Now())
    {
      ghost var before := Now();
      E.DeleteAllDoes(events, before, workspace, ids);
      if S.Inv(before) && S.Lists(before, workspace, ids) {
        S.DeleteAllKeeps(events, before, workspace, ids);
      }
      var listed := Attempt();
      if !listed {
        return S.Finished(false);
      }
      label Listed:
      assert ids[0..] == ids;
      for i := 0 to |ids|
        invariant S.KillAll(events, Now(), ids[i..]) == S.KillAll(events, old@Listed(Now()), ids)
      {
        assert ids[i..][0] == ids[i] && ids[i..][1..] == ids[i + 1..];
        var killed := KillSession(ids[i]);
        if !killed {
          return S.Finished(false);
        }
      }
      assert S.KillAll(events, Now(), ids[|ids|..]) == (true, Now());
      var removed := Attempt();
      if !removed {
        return S.Finished(false);
      }
      var deleted := Attempt();
      if deleted {
        records := S.WithoutWorkspace(records, workspace);
      }
      reply := S.Finished(deleted);
    }
  }
}
