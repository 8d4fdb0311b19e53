/**
 * What each branch of acquire and release comes to: who gets inside, who is turned away, and what is left at the path.
 */
module LockRuns {
  import opened Text
  import opened Lock

  /**
   * These actions lead from s to a state where `id` stands at `pc`, the path holds `dir` and no other process has
   * moved.
   */
  predicate Reaches(worktree: string, s: State, actions: seq<Action>, id: nat, pc: Pc, dir: Option<Dir>) {
    && id in s.procs && AllEnabled(worktree, s, actions)
    && Run(worktree, s, actions) == State(dir, s.procs[id := s.procs[id].(pc := pc)])
  }

  lemma {:induction false} ReachesOn(
    worktree: string, s: State, actions: seq<Action>, id: nat, pc: Pc, dir: Option<Dir>, more: seq<Action>, pc': Pc,
    dir': Option<Dir>
  )
    requires Reaches(worktree, s, actions, id, pc, dir)
    requires Reaches(worktree, Run(worktree, s, actions), more, id, pc', dir')
    ensures Reaches(worktree, s, actions + more, id, pc', dir')
  {
    hide AllEnabled, Run;
    RunBoth(worktree, s, actions, more);
    assert s.procs[id := s.procs[id].(pc := pc)][id := s.procs[id].(pc := pc')] ==
        s.procs[id := s.procs[id].(pc := pc')];
  }

  lemma ReachesByOne(worktree: string, s: State, a: Action)
    requires Enabled(s, a)
    ensures AllEnabled(worktree, s, [a]) && Run(worktree, s, [a]) == Step(worktree, s, a)
  {
    hide Step, Enabled;
    NothingToDo(worktree, Step(worktree, s, a));
    RunOne(worktree, s, a, []);
    assert [a] + [] == [a];
  }

  function Own(worktree: string, s: State, id: nat): Dir
    requires id in s.procs
  {
    Dir(id, Some(s.procs[id].pid), Some(worktree))
  }

  /** The two writes of `claim`. */
  lemma {:induction false} ClaimLeads(worktree: string, s: State, id: nat, maker: nat)
    requires At(s, id, WritingPid) && s.dir == Some(Dir(maker, None, None))
    ensures Reaches(worktree, s, [WritePid(id)] + [WriteOwner(id)], id, Inside,
                    Some(Dir(maker, Some(s.procs[id].pid), Some(worktree))))
  {
    hide AllEnabled, Run;
    ReachesByOne(worktree, s, WritePid(id));
    var s1 := Step(worktree, s, WritePid(id));
    ReachesByOne(worktree, s1, WriteOwner(id));
    ReachesOn(worktree, s, [WritePid(id)], id, WritingOwner, s1.dir, [WriteOwner(id)], Inside,
              Some(Dir(maker, Some(s.procs[id].pid), Some(worktree))));
  }

  /** A free path is taken: the process gets inside, and its own complete directory is there. */
  lemma {:induction false} FreeLockIsTaken(worktree: string, s: State, id: nat)
    requires At(s, id, Start) && s.dir.None?
    ensures Reaches(worktree, s, [Mkdir(id)] + ([WritePid(id)] + [WriteOwner(id)]), id, Inside,
              Some(Own(worktree, s, id)))
  {
    hide AllEnabled, Run;
    ReachesByOne(worktree, s, Mkdir(id));
    ClaimLeads(worktree, Step(worktree, s, Mkdir(id)), id, id);
    ReachesOn(worktree, s, [Mkdir(id)], id, WritingPid, Some(Dir(id, None, None)), [WritePid(id)] + [WriteOwner(id)],
              Inside, Some(Own(worktree, s, id)));
  }

  function Removal(id: nat): seq<Action> { [RemoveFile(id, true)] + ([RemoveFile(id, false)] + [RemoveDir(id)]) }

  lemma {:induction false} RemovalLeads(worktree: string, s: State, id: nat)
    requires At(s, id, Removing)
    ensures Reaches(worktree, s, Removal(id), id, Done, None)
  {
    hide AllEnabled, Run;
    var s1 := Step(worktree, s, RemoveFile(id, true));
    var s2 := Step(worktree, s1, RemoveFile(id, false));
    assert s.procs[id := s.procs[id].(pc := Removing)] == s.procs;
    ReachesByOne(worktree, s, RemoveFile(id, true));
    ReachesByOne(worktree, s1, RemoveFile(id, false));
    ReachesByOne(worktree, s2, RemoveDir(id));
    ReachesOn(worktree, s1, [RemoveFile(id, false)], id, Removing, s2.dir, [RemoveDir(id)], Done, None);
    ReachesOn(worktree, s, [RemoveFile(id, true)], id, Removing, s1.dir, [RemoveFile(id, false)] + [RemoveDir(id)],
              Done, None);
  }

  /** The directory at the path names this worktree and this process. */
  predicate NamesSelf(worktree: string, s: State, id: nat)
    requires id in s.procs
  {
    s.dir.Some? && s.dir.value.owner == Some(worktree) && s.dir.value.pid == Some(s.procs[id].pid)
  }

  lemma {:induction false} ReleaseReads(worktree: string, s: State, id: nat)
    requires At(s, id, Inside)
    ensures Reaches(worktree, s, [ReadOwner(id)] + [ReadPid(id)], id,
                    if NamesSelf(worktree, s, id) then Removing else Done, s.dir)
  {
    hide AllEnabled, Run;
    var s1 := Step(worktree, s, ReadOwner(id));
    ReachesByOne(worktree, s, ReadOwner(id));
    ReachesByOne(worktree, s1, ReadPid(id));
    ReachesOn(worktree, s, [ReadOwner(id)], id, s1.procs[id].pc, s.dir, [ReadPid(id)],
              if NamesSelf(worktree, s, id) then Removing else Done, s.dir);
  }

  /** Release removes a directory that names the process. */
  lemma {:induction false} ReleaseFreesLock(worktree: string, s: State, id: nat)
    requires At(s, id, Inside) && NamesSelf(worktree, s, id)
    ensures Reaches(worktree, s, ([ReadOwner(id)] + [ReadPid(id)]) + Removal(id), id, Done, None)
  {
    hide AllEnabled, Run, Removal;
    ReleaseReads(worktree, s, id);
    RemovalLeads(worktree, State(s.dir, s.procs[id := s.procs[id].(pc := Removing)]), id);
    ReachesOn(worktree, s, [ReadOwner(id)] + [ReadPid(id)], id, Removing, s.dir, Removal(id), Done, None);
  }

  /** Release leaves any other directory alone. */
  lemma {:induction false} ReleaseSparesOthers(worktree: string, s: State, id: nat)
    requires At(s, id, Inside) && !NamesSelf(worktree, s, id)
    ensures Reaches(worktree, s, [ReadOwner(id)] + [ReadPid(id)], id, Done, s.dir)
  {
    ReleaseReads(worktree, s, id);
  }

  /** A complete lock of this worktree whose pid no living process has. */
  ghost predicate Abandoned(s: State, worktree: string) {
    && s.dir.Some? && s.dir.value.pid.Some? && s.dir.value.owner == Some(worktree)
    && forall j :: j in s.procs && s.procs[j].pid == s.dir.value.pid.value ==> s.procs[j].dead
  }

  lemma AbandonedIsStale(s: State, worktree: string)
    ensures Abandoned(s, worktree) <==> Stale(s, worktree)
  {
  }

  lemma {:induction false} MkdirLoses(worktree: string, s: State, id: nat)
    requires At(s, id, Start) && s.dir.Some?
    ensures Reaches(worktree, s, [Mkdir(id)], id, Contending, s.dir)
  {
    hide AllEnabled, Run;
    ReachesByOne(worktree, s, Mkdir(id));
  }

  /** A contender takes an abandoned lock over: it gets inside, under its own directory. */
  lemma {:induction false} AbandonedLockIsTakenOver(worktree: string, s: State, id: nat)
    requires At(s, id, Start) && Abandoned(s, worktree)
    ensures Reaches(worktree, s,
                    [Mkdir(id)] + ([Recover(id)] + ([MkdirAgain(id)] + ([WritePid(id)] + [WriteOwner(id)]))),
                    id, Inside, Some(Own(worktree, s, id)))
  {
    hide AllEnabled, Run, Stale;
    MkdirLoses(worktree, s, id);
    var s1 := Step(worktree, s, Mkdir(id));
    AbandonedIsStale(s1, worktree);
    var s2 := Step(worktree, s1, Recover(id));
    var s3 := Step(worktree, s2, MkdirAgain(id));
    ReachesByOne(worktree, s1, Recover(id));
    ReachesByOne(worktree, s2, MkdirAgain(id));
    ClaimLeads(worktree, s3, id, id);
    var claim := [WritePid(id)] + [WriteOwner(id)];
    ReachesOn(worktree, s2, [MkdirAgain(id)], id, WritingPid, s3.dir, claim, Inside, Some(Own(worktree, s, id)));
    ReachesOn(worktree, s1, [Recover(id)], id, Remaking, None, [MkdirAgain(id)] + claim, Inside,
              Some(Own(worktree, s, id)));
    ReachesOn(worktree, s, [Mkdir(id)], id, Contending, s.dir, [Recover(id)] + ([MkdirAgain(id)] + claim), Inside,
              Some(Own(worktree, s, id)));
  }

  /** The same with the rename as a step of its own. */
  lemma {:induction false} AbandonedLockIsJudged(worktree: string, s: State, id: nat)
    requires At(s, id, Start) && Abandoned(s, worktree)
    ensures Reaches(worktree, s, [Mkdir(id)] + ([Judge(id)] + [Rename(id)]), id, Remaking, None)
  {
    hide AllEnabled, Run, Stale;
    MkdirLoses(worktree, s, id);
    var s1 := Step(worktree, s, Mkdir(id));
    AbandonedIsStale(s1, worktree);
    ReachesByOne(worktree, s1, Judge(id));
    ReachesByOne(worktree, Step(worktree, s1, Judge(id)), Rename(id));
    ReachesOn(worktree, s1, [Judge(id)], id, Judged, s.dir, [Rename(id)], Remaking, None);
    ReachesOn(worktree, s, [Mkdir(id)], id, Contending, s.dir, [Judge(id)] + [Rename(id)], Remaking, None);
  }

  /** A lock that is live, incomplete or another worktree's turns the contender away and stays as it is. */
  lemma {:induction false} OtherLockIsRespected(worktree: string, s: State, id: nat)
    requires At(s, id, Start) && s.dir.Some?
    requires s.dir.value.pid.None? || s.dir.value.owner != Some(worktree)
             || exists j :: Live(s, j) && s.dir.value.pid == Some(s.procs[j].pid)
    ensures Reaches(worktree, s, [Mkdir(id)] + [Recover(id)], id, Done, s.dir)
    ensures Reaches(worktree, s, [Mkdir(id)] + [Judge(id)], id, Done, s.dir)
  {
    hide AllEnabled, Run, Stale;
    MkdirLoses(worktree, s, id);
    var s1 := Step(worktree, s, Mkdir(id));
    AbandonedIsStale(s1, worktree);
    if j: nat :| Live(s, j) && s.dir.value.pid == Some(s.procs[j].pid) {
      assert s1.procs[j].pid == s.procs[j].pid && !s1.procs[j].dead;
    }
    ReachesByOne(worktree, s1, Recover(id));
    ReachesByOne(worktree, s1, Judge(id));
    ReachesOn(worktree, s, [Mkdir(id)], id, Contending, s.dir, [Recover(id)], Done, s.dir);
    ReachesOn(worktree, s, [Mkdir(id)], id, Contending, s.dir, [Judge(id)], Done, s.dir);
  }

  /** A process that finds the path taken again after its rename gives up. */
  lemma {:induction false} SecondMkdirGivesUp(worktree: string, s: State, id: nat)
    requires At(s, id, Remaking) && s.dir.Some?
    ensures Reaches(worktree, s, [MkdirAgain(id)], id, Done, s.dir)
  {
    hide AllEnabled, Run;
    ReachesByOne(worktree, s, MkdirAgain(id));
  }

  /** A claim whose write fails clears the path. */
  lemma {:induction false} FailedClaimCleansUp(worktree: string, s: State, id: nat)
    requires At(s, id, WritingPid) || At(s, id, WritingOwner)
    ensures Reaches(worktree, s, [WriteFails(id)] + Removal(id), id, Done, None)
  {
    hide AllEnabled, Run, Removal;
    ReachesByOne(worktree, s, WriteFails(id));
    RemovalLeads(worktree, Step(worktree, s, WriteFails(id)), id);
    ReachesOn(worktree, s, [WriteFails(id)], id, Removing, s.dir, Removal(id), Done, None);
  }

  /** From Start to Inside and out again: the path is as free as it was. */
  lemma {:induction false} SessionRestoresFreePath(worktree: string, s: State, id: nat)
    requires At(s, id, Start) && s.dir.None?
    ensures Reaches(worktree, s, ([Mkdir(id)] + ([WritePid(id)] + [WriteOwner(id)]))
                                 + (([ReadOwner(id)] + [ReadPid(id)]) + Removal(id)), id, Done, None)
  {
    hide AllEnabled, Run, Removal;
    FreeLockIsTaken(worktree, s, id);
    ReleaseFreesLock(worktree, State(Some(Own(worktree, s, id)), s.procs[id := s.procs[id].(pc := Inside)]), id);
    ReachesOn(worktree, s, [Mkdir(id)] + ([WritePid(id)] + [WriteOwner(id)]), id, Inside, Some(Own(worktree, s, id)),
              ([ReadOwner(id)] + [ReadPid(id)]) + Removal(id), Done, None);
  }

  /**
   * After a process has died inside, the next one, as soon as it starts, finds the lock abandoned exactly when it was
   * not given the dead process's pid; with that pid it takes itself for the owner and is turned away.
   */
  lemma {:induction false} CrashIsRecoverableExactly(worktree: string, s: State, i: nat, j: nat, pid: nat)
    requires Owned(worktree, s) && At(s, i, Inside) && j !in s.procs && (Alive(s, pid) ==> pid == s.procs[i].pid)
    ensures AllEnabled(worktree, s, [Die(i)] + [Spawn(j, pid)])
    ensures var t := Run(worktree, s, [Die(i)] + [Spawn(j, pid)]);
            && t.dir == Some(Own(worktree, s, i)) && At(t, j, Start)
            && (Abandoned(t, worktree) <==> pid != s.procs[i].pid)
  {
    hide AllEnabled, Run, Stale, PidNamesMaker;
    assert Claims(s.procs[i]) && Holds(worktree, s, i);
    var s1 := Step(worktree, s, Die(i));
    assert !Alive(s1, pid);
    ReachesByOne(worktree, s, Die(i));
    ReachesByOne(worktree, s1, Spawn(j, pid));
    RunBoth(worktree, s, [Die(i)], [Spawn(j, pid)]);
    var t := Step(worktree, s1, Spawn(j, pid));
    if pid == s.procs[i].pid {
      assert !t.procs[j].dead && t.procs[j].pid == t.dir.value.pid.value;
    }
  }
}
