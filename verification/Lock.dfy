/**
 * The worktree lock as interleaved steps over one directory (cmd/devtools/lock.go). Processes may die at any point,
 * and a dead process's pid may be used again.
 */
module Lock {
  import opened Text

  /** The lock directory: who made it, and its two files. */
  datatype Dir = Dir(maker: nat, pid: Option<nat>, owner: Option<string>)

  datatype Pc =
    | Start
    | Contending
    | Judged       // read a dead owner's files, about to rename
    | Remaking     // renamed the stale directory away
    | WritingPid
    | WritingOwner
    | Inside       // in operation()
    | Leaving(ownerMatches: bool)
    | Removing
    | Done

  datatype Proc = Proc(pid: nat, pc: Pc, dead: bool)

  /** The directory at the lock path, and every process there has been, by a number of its own. */
  datatype State = State(dir: Option<Dir>, procs: map<nat, Proc>)

  datatype Action =
    | Spawn(id: nat, pid: nat)
    | Die(id: nat)
    | Mkdir(id: nat)
    | Recover(id: nat)    // the stale branch as one step: read, judge, rename
    | Judge(id: nat)      // its first half: read and judge
    | Rename(id: nat)     // its second half
    | MkdirAgain(id: nat)
    | WritePid(id: nat)
    | WriteOwner(id: nat)
    | WriteFails(id: nat)
    | ReadOwner(id: nat)
    | ReadPid(id: nat)
    | RemoveFile(id: nat, which: bool)
    | RemoveDir(id: nat)

  predicate Live(s: State, id: nat) { id in s.procs && !s.procs[id].dead }

  predicate At(s: State, id: nat, pc: Pc) { Live(s, id) && s.procs[id].pc == pc }

  /** `processAlive`. */
  predicate Alive(s: State, pid: nat) { exists id :: id in s.procs && !s.procs[id].dead && s.procs[id].pid == pid }

  /** The stale branch finds a complete lock of this worktree whose process is gone. */
  predicate Stale(s: State, worktree: string) {
    s.dir.Some? && s.dir.value.pid.Some? && s.dir.value.owner == Some(worktree) && !Alive(s, s.dir.value.pid.value)
  }

  predicate Enabled(s: State, a: Action) {
    match a
    case Spawn(id, pid) => id !in s.procs && !Alive(s, pid)
    case Die(id) => Live(s, id)
    case Mkdir(id) => At(s, id, Start)
    case Recover(id) => At(s, id, Contending)
    case Judge(id) => At(s, id, Contending)
    case Rename(id) => At(s, id, Judged)
    case MkdirAgain(id) => At(s, id, Remaking)
    case WritePid(id) => At(s, id, WritingPid)
    case WriteOwner(id) => At(s, id, WritingOwner)
    case WriteFails(id) => At(s, id, WritingPid) || At(s, id, WritingOwner)
    case ReadOwner(id) => At(s, id, Inside)
    case ReadPid(id) => Live(s, id) && s.procs[id].pc.Leaving?
    case RemoveFile(id, which) => At(s, id, Removing)
    case RemoveDir(id) => At(s, id, Removing)
  }

  function Goto(s: State, id: nat, pc: Pc): State
    requires id in s.procs
  {
    s.(procs := s.procs[id := s.procs[id].(pc := pc)])
  }

  /** `os.Mkdir` on the lock path. */
  function Make(s: State, id: nat, taken: Pc): State
    requires id in s.procs
  {
    if s.dir.None? then Goto(s.(dir := Some(Dir(id, None, None))), id, WritingPid) else Goto(s, id, taken)
  }

  function Step(worktree: string, s: State, a: Action): State
    requires Enabled(s, a)
  {
    match a
    case Spawn(id, pid) => s.(procs := s.procs[id := Proc(pid, Start, false)])
    case Die(id) => s.(procs := s.procs[id := s.procs[id].(dead := true)])
    case Mkdir(id) => Make(s, id, Contending)
    case Recover(id) => if Stale(s, worktree) then Goto(s.(dir := None), id, Remaking) else Goto(s, id, Done)
    case Judge(id) => Goto(s, id, if Stale(s, worktree) then Judged else Done)
    case Rename(id) => if s.dir.Some? then Goto(s.(dir := None), id, Remaking) else Goto(s, id, Done)
    case MkdirAgain(id) => Make(s, id, Done)
    case WritePid(id) =>
      if s.dir.Some? then Goto(s.(dir := Some(s.dir.value.(pid := Some(s.procs[id].pid)))), id, WritingOwner)
      else Goto(s, id, Removing)
    case WriteOwner(id) =>
      if s.dir.Some? then Goto(s.(dir := Some(s.dir.value.(owner := Some(worktree)))), id, Inside)
      else Goto(s, id, Removing)
    case WriteFails(id) => Goto(s, id, Removing)
    case ReadOwner(id) => Goto(s, id, Leaving(s.dir.Some? && s.dir.value.owner == Some(worktree)))
    case ReadPid(id) =>
      var matches := s.procs[id].pc.ownerMatches && s.dir.Some? && s.dir.value.pid == Some(s.procs[id].pid);
      Goto(s, id, if matches then Removing else Done)
    case RemoveFile(id, which) =>
      if s.dir.None? then s
      else if which then s.(dir := Some(s.dir.value.(pid := None)))
      else s.(dir := Some(s.dir.value.(owner := None)))
    case RemoveDir(id) => Goto(s.(dir := None), id, Done)
  }

  // ---- With the stale branch as one step ----

  /** The process is writing into the directory, relying on it or removing it, without looking at it again. */
  predicate Claims(p: Proc) { !p.dead && (p.pc.WritingPid? || p.pc.WritingOwner? || p.pc.Inside? || p.pc.Removing?) }

  /** What a process that claims the directory has put into it. */
  predicate Holds(worktree: string, s: State, id: nat) {
    id in s.procs && s.dir.Some? && s.dir.value.maker == id &&
    match s.procs[id].pc
    case WritingPid => s.dir.value.pid.None? && s.dir.value.owner.None?
    case WritingOwner => s.dir.value.pid == Some(s.procs[id].pid) && s.dir.value.owner.None?
    case Inside => s.dir.value.pid == Some(s.procs[id].pid) && s.dir.value.owner == Some(worktree)
    case _ => true
  }

  ghost predicate DistinctPids(s: State) {
    forall i, j :: Live(s, i) && Live(s, j) && s.procs[i].pid == s.procs[j].pid ==> i == j
  }

  /**
   * The pid file names the maker of the directory, and a process about to compare it with its own finds its own only
   * there.
   */
  ghost predicate PidNamesMaker(s: State) {
    s.dir.Some? && s.dir.value.pid.Some? ==>
      && s.dir.value.maker in s.procs && s.procs[s.dir.value.maker].pid == s.dir.value.pid.value
      && forall j :: Live(s, j) && s.procs[j].pc.Leaving? && s.dir.value.pid.value == s.procs[j].pid ==>
           s.dir.value.maker == j
  }

  /** Every process that claims the directory made it and holds its files. */
  ghost predicate Owned(worktree: string, s: State) {
    && (forall id :: id in s.procs && Claims(s.procs[id]) ==> Holds(worktree, s, id))
    && PidNamesMaker(s) && DistinctPids(s)
  }

  /** At most one process is inside the protected operation. */
  ghost predicate Exclusive(s: State) { forall i, j :: At(s, i, Inside) && At(s, j, Inside) ==> i == j }

  /** A process about to remove the directory removes its own. */
  ghost predicate OwnRemoval(s: State) { forall id :: At(s, id, Removing) && s.dir.Some? ==> s.dir.value.maker == id }

  lemma OwnedKeepsPromises(worktree: string, s: State)
    requires Owned(worktree, s)
    ensures Exclusive(s) && OwnRemoval(s) && forall id :: At(s, id, Removing) ==> s.dir.Some?
  {
    forall i | Live(s, i) && Claims(s.procs[i]) ensures Holds(worktree, s, i) {
    }
  }

  /** The directory that looks stale was made by a process that is gone. */
  lemma StaleMakerIsDead(worktree: string, s: State)
    requires Owned(worktree, s) && Stale(s, worktree)
    ensures Unclaimed(s)
  {
  }

  lemma ClaimantsKeep(worktree: string, s: State, a: Action)
    requires Owned(worktree, s) && Enabled(s, a) && (a.Rename? ==> Unclaimed(s))
    ensures var t := Step(worktree, s, a);
            forall id :: id in t.procs && Claims(t.procs[id]) ==> Holds(worktree, t, id)
  {
    hide Alive, Stale, PidNamesMaker, DistinctPids;
    var t := Step(worktree, s, a);
    if a.Recover? && Stale(s, worktree) {
      StaleMakerIsDead(worktree, s);
    }
    if a.ReadPid? {
      ReadPidFindsMaker(worktree, s, a.id);
    }
    forall id | id in t.procs && Claims(t.procs[id]) ensures Holds(worktree, t, id) {
      if id in s.procs && Claims(s.procs[id]) {
        assert Holds(worktree, s, id);
      }
    }
  }

  lemma ReadPidFindsMaker(worktree: string, s: State, id: nat)
    requires Owned(worktree, s) && Enabled(s, ReadPid(id))
    ensures At(Step(worktree, s, ReadPid(id)), id, Removing) ==> s.dir.Some? && s.dir.value.maker == id
  {
  }

  lemma PidsKeep(worktree: string, s: State, a: Action)
    requires Owned(worktree, s) && Enabled(s, a)
    ensures PidNamesMaker(Step(worktree, s, a)) && DistinctPids(Step(worktree, s, a))
  {
    hide Stale;
    var t := Step(worktree, s, a);
    if a.WritePid? || a.ReadOwner? {
      assert Claims(s.procs[a.id]) && Holds(worktree, s, a.id);
    }
  }

  lemma StepKeepsOwned(worktree: string, s: State, a: Action)
    requires Owned(worktree, s) && Enabled(s, a) && (a.Rename? ==> Unclaimed(s))
    ensures Owned(worktree, Step(worktree, s, a))
  {
    hide Step, Enabled;
    ClaimantsKeep(worktree, s, a);
    PidsKeep(worktree, s, a);
  }

  predicate AllEnabled(worktree: string, s: State, actions: seq<Action>)
    decreases |actions|
  {
    actions != [] ==> Enabled(s, actions[0]) && AllEnabled(worktree, Step(worktree, s, actions[0]), actions[1..])
  }

  function Run(worktree: string, s: State, actions: seq<Action>): State
    requires AllEnabled(worktree, s, actions)
    decreases |actions|
  {
    if actions == [] then s else Run(worktree, Step(worktree, s, actions[0]), actions[1..])
  }

  /**
   * Every separate rename moves away a directory that no live process claims; one that is leaving may still be there.
   */
  predicate Guarded(worktree: string, s: State, actions: seq<Action>)
    requires AllEnabled(worktree, s, actions)
    decreases |actions|
  {
    actions != [] ==>
      && (actions[0].Rename? ==> Unclaimed(s))
      && Guarded(worktree, Step(worktree, s, actions[0]), actions[1..])
  }

  predicate Unclaimed(s: State) { forall j :: j in s.procs ==> !Claims(s.procs[j]) }

  /** In every such interleaving at most one process is inside, and whoever removes the directory made it. */
  lemma {:induction false} GuardedRunsExclude(worktree: string, s: State, actions: seq<Action>)
    requires Owned(worktree, s) && AllEnabled(worktree, s, actions) && Guarded(worktree, s, actions)
    ensures var t := Run(worktree, s, actions);
            && Owned(worktree, t) && Exclusive(t) && OwnRemoval(t)
            && forall id :: At(t, id, Removing) ==> t.dir.Some?
    decreases |actions|
  {
    hide Step, Enabled, Owned;
    if actions == [] {
      OwnedKeepsPromises(worktree, s);
    } else {
      StepKeepsOwned(worktree, s, actions[0]);
      GuardedRunsExclude(worktree, Step(worktree, s, actions[0]), actions[1..]);
    }
  }

  lemma {:induction false} AtomicIsGuarded(worktree: string, s: State, actions: seq<Action>)
    requires AllEnabled(worktree, s, actions) && forall a :: a in actions ==> !a.Rename?
    ensures Guarded(worktree, s, actions)
    decreases |actions|
  {
    hide Step, Enabled;
    if actions != [] {
      assert !actions[0].Rename?;
      AtomicIsGuarded(worktree, Step(worktree, s, actions[0]), actions[1..]);
    }
  }

  /**
   * With the read, the liveness check and the rename of the stale branch taken as one step: in every interleaving,
   * deaths and reused pids included, at most one process is inside, and release removes only the claimant's own
   * directory.
   */
  lemma {:induction false} MutualExclusion(worktree: string, s: State, actions: seq<Action>)
    requires Owned(worktree, s) && AllEnabled(worktree, s, actions) && forall a :: a in actions ==>
               !a.Judge? && !a.Rename?
    ensures var t := Run(worktree, s, actions);
            Exclusive(t) && OwnRemoval(t) && forall id :: At(t, id, Removing) ==> t.dir.Some?
  {
    AtomicIsGuarded(worktree, s, actions);
    GuardedRunsExclude(worktree, s, actions);
  }

  // ---- With the stale branch in two steps ----

  lemma {:induction false} RunOne(worktree: string, s: State, a: Action, rest: seq<Action>)
    requires Enabled(s, a) && AllEnabled(worktree, Step(worktree, s, a), rest)
    ensures AllEnabled(worktree, s, [a] + rest)
    ensures Run(worktree, s, [a] + rest) == Run(worktree, Step(worktree, s, a), rest)
  {
  }

  lemma {:induction false} RunBoth(worktree: string, s: State, xs: seq<Action>, ys: seq<Action>)
    requires AllEnabled(worktree, s, xs) && AllEnabled(worktree, Run(worktree, s, xs), ys)
    ensures AllEnabled(worktree, s, xs + ys)
    ensures Run(worktree, s, xs + ys) == Run(worktree, Run(worktree, s, xs), ys)
    decreases |xs|
  {
    hide Step, Enabled;
    if xs == [] {
      assert xs + ys == ys;
    } else {
      assert (xs + ys)[0] == xs[0] && (xs + ys)[1..] == xs[1..] + ys;
      RunBoth(worktree, Step(worktree, s, xs[0]), xs[1..], ys);
    }
  }

  lemma NothingToDo(worktree: string, s: State)
    ensures AllEnabled(worktree, s, []) && Run(worktree, s, []) == s
  {
  }

  /** What follows the rename of the stale branch. */
  function Claim(id: nat): seq<Action> { [MkdirAgain(id)] + ([WritePid(id)] + ([WriteOwner(id)] + [])) }

  function Renamed(s: State, id: nat): State
    requires id in s.procs
  {
    Goto(s.(dir := None), id, Remaking)
  }

  function TakenOver(worktree: string, s: State, id: nat): State
    requires id in s.procs
  {
    Goto(s.(dir := Some(Dir(id, Some(s.procs[id].pid), Some(worktree)))), id, Inside)
  }

  lemma {:induction false} ClaimSucceeds(worktree: string, s: State, id: nat)
    requires At(s, id, Remaking) && s.dir.None?
    ensures AllEnabled(worktree, s, Claim(id)) && Run(worktree, s, Claim(id)) == TakenOver(worktree, s, id)
  {
    hide AllEnabled, Run;
    var s1 := Step(worktree, s, MkdirAgain(id));
    var s2 := Step(worktree, s1, WritePid(id));
    var s3 := Step(worktree, s2, WriteOwner(id));
    NothingToDo(worktree, s3);
    RunOne(worktree, s2, WriteOwner(id), []);
    RunOne(worktree, s1, WritePid(id), [WriteOwner(id)] + []);
    RunOne(worktree, s, MkdirAgain(id), [WritePid(id)] + ([WriteOwner(id)] + []));
  }

  /** Whatever happens next, short of another separate rename, both promises hold. */
  ghost predicate SafeFrom(worktree: string, s: State) {
    forall actions: seq<Action> {:trigger AllEnabled(worktree, s, actions)} ::
      AllEnabled(worktree, s, actions) && (forall a :: a in actions ==> !a.Rename?) ==>
        Exclusive(Run(worktree, s, actions)) && OwnRemoval(Run(worktree, s, actions))
  }

  lemma Unsafe(worktree: string, s: State, actions: seq<Action>)
    requires AllEnabled(worktree, s, actions) && forall a :: a in actions ==> !a.Rename?
    requires !Exclusive(Run(worktree, s, actions)) || !OwnRemoval(Run(worktree, s, actions))
    ensures !SafeFrom(worktree, s)
  {
  }

  /** The renaming process takes the lock while another is inside, or makes a directory that another then removes. */
  lemma {:induction false} ClaimedRenameIsUnsafe(worktree: string, s: State, id: nat, j: nat)
    requires At(s, id, Judged) && s.dir.Some? && j in s.procs && Claims(s.procs[j])
    ensures !SafeFrom(worktree, Renamed(s, id))
  {
    hide AllEnabled, Run;
    var s1 := Renamed(s, id);
    if s.procs[j].pc.Inside? {
      ClaimSucceeds(worktree, s1, id);
      var t := TakenOver(worktree, s1, id);
      assert At(t, id, Inside) && At(t, j, Inside);
      Unsafe(worktree, s1, Claim(id));
    } else {
      var s2 := Step(worktree, s1, MkdirAgain(id));
      if s.procs[j].pc.Removing? {
        NothingToDo(worktree, s2);
        RunOne(worktree, s1, MkdirAgain(id), []);
        assert At(s2, j, Removing);
        Unsafe(worktree, s1, [MkdirAgain(id)] + []);
      } else {
        var s3 := Step(worktree, s2, WriteFails(j));
        NothingToDo(worktree, s3);
        RunOne(worktree, s2, WriteFails(j), []);
        RunOne(worktree, s1, MkdirAgain(id), [WriteFails(j)] + []);
        assert At(s3, j, Removing);
        Unsafe(worktree, s1, [MkdirAgain(id)] + ([WriteFails(j)] + []));
      }
    }
  }

  lemma {:induction false} OwnedIsSafe(worktree: string, s: State)
    requires Owned(worktree, s)
    ensures SafeFrom(worktree, s)
  {
    hide AllEnabled, Run, Owned;
    forall actions: seq<Action> | AllEnabled(worktree, s, actions) && (forall a :: a in actions ==> !a.Rename?)
      ensures Exclusive(Run(worktree, s, actions)) && OwnRemoval(Run(worktree, s, actions))
    {
      AtomicIsGuarded(worktree, s, actions);
      GuardedRunsExclude(worktree, s, actions);
    }
  }

  /**
   * A separate rename of a directory that is there is harmless, however the run goes on, exactly when no live process
   * is writing into the directory, inside under it, or removing it. One that has only begun to leave does no harm.
   */
  lemma {:induction false} RenameIsSafeExactly(worktree: string, s: State, id: nat)
    requires Owned(worktree, s) && Enabled(s, Rename(id)) && s.dir.Some?
    ensures SafeFrom(worktree, Step(worktree, s, Rename(id))) <==> Unclaimed(s)
  {
    hide SafeFrom, Owned;
    assert Step(worktree, s, Rename(id)) == Renamed(s, id);
    if Unclaimed(s) {
      StepKeepsOwned(worktree, s, Rename(id));
      OwnedIsSafe(worktree, Renamed(s, id));
    } else {
      var j :| j in s.procs && Claims(s.procs[j]);
      ClaimedRenameIsUnsafe(worktree, s, id, j);
    }
  }

  /** The rest of the stale branch, once the old owner has been judged dead. */
  function TakeOver(id: nat): seq<Action> { [Rename(id)] + Claim(id) }

  lemma {:induction false} TakeOverSucceeds(worktree: string, s: State, id: nat)
    requires At(s, id, Judged) && s.dir.Some?
    ensures AllEnabled(worktree, s, TakeOver(id)) && Run(worktree, s, TakeOver(id)) == TakenOver(worktree, s, id)
  {
    hide AllEnabled, Run, Claim;
    ClaimSucceeds(worktree, Renamed(s, id), id);
    RunOne(worktree, s, Rename(id), Claim(id));
  }

  /** From any state in which two processes have judged the old lock stale, both can end up inside. */
  lemma {:induction false} TwoGetInside(worktree: string, s: State, i: nat, j: nat)
    requires i != j && At(s, i, Judged) && At(s, j, Judged) && s.dir.Some?
    ensures AllEnabled(worktree, s, TakeOver(i) + TakeOver(j))
    ensures !Exclusive(Run(worktree, s, TakeOver(i) + TakeOver(j)))
  {
    hide AllEnabled, Run, TakeOver;
    TakeOverSucceeds(worktree, s, i);
    var mid := TakenOver(worktree, s, i);
    TakeOverSucceeds(worktree, mid, j);
    RunBoth(worktree, s, TakeOver(i), TakeOver(j));
    var t := TakenOver(worktree, mid, j);
    assert At(t, i, Inside) && At(t, j, Inside);
  }

  /** A lock left complete by process 0, which has died; 1 and 2 arrive. */
  function LeftBehind(worktree: string): State {
    State(Some(Dir(0, Some(100), Some(worktree))),
          map[0 := Proc(100, Inside, true), 1 := Proc(101, Start, false), 2 := Proc(102, Start, false)])
  }

  /** Two processes find a lock left behind, and both judge it stale before either renames it. */
  function BothJudge(): seq<Action> { [Mkdir(1)] + ([Mkdir(2)] + ([Judge(1)] + ([Judge(2)] + []))) }

  /** The run that breaks the code as written, from a sound state: both processes end inside. */
  lemma {:induction false} CodeAsWrittenFails(worktree: string)
    ensures var s, actions := LeftBehind(worktree), BothJudge() + (TakeOver(1) + TakeOver(2));
            Owned(worktree, s) && AllEnabled(worktree, s, actions) && !Exclusive(Run(worktree, s, actions))
  {
    hide AllEnabled, Run, TakeOver;
    var s0 := LeftBehind(worktree);
    var s1 := Step(worktree, s0, Mkdir(1));
    var s2 := Step(worktree, s1, Mkdir(2));
    assert !Alive(s2, 100);
    var s3 := Step(worktree, s2, Judge(1));
    assert !Alive(s3, 100);
    var s4 := Step(worktree, s3, Judge(2));
    NothingToDo(worktree, s4);
    RunOne(worktree, s3, Judge(2), []);
    RunOne(worktree, s2, Judge(1), [Judge(2)] + []);
    RunOne(worktree, s1, Mkdir(2), [Judge(1)] + ([Judge(2)] + []));
    RunOne(worktree, s0, Mkdir(1), [Mkdir(2)] + ([Judge(1)] + ([Judge(2)] + [])));
    TwoGetInside(worktree, s4, 1, 2);
    RunBoth(worktree, s0, BothJudge(), TakeOver(1) + TakeOver(2));
  }
}
