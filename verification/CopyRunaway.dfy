/** Where the copy reads a directory above its own destination, it never ends well: it chases what it has just made. */
module CopyRunaway {
  import opened Collections
  import opened CopyGuarded
  import opened CopyRun
  import opened CopyTree
  import opened FileSystem
  import opened Text

  // ---- It never succeeds ----

  /** A loop that succeeds has copied each name, at some state of its own. */
  lemma {:induction false} EachCopied(
    disk: Disk, here: Path, names: seq<string>, at: Path, stack: set<Path>, depth: nat, x: string
  ) returns (mid: Disk)
    requires WellFormed(disk) && PlainPath(at) && (forall y :: y in names ==> here + [y] in disk) && x in names
    requires Succeeded(RunAll(disk, here, names, at, stack, depth))
    ensures WellFormed(mid) && Extends(disk, mid, at)
    ensures Succeeded(Run(mid, here + [x], at + [x], stack, depth))
    decreases |names|
  {
    hide WellFormed, Extends, PlainPath, Run;
    SameExtends(disk, at);
    if x == names[0] {
      mid := disk;
    } else {
      assert here + [names[0]] in disk;
      ListedIsPlain(disk, here, at, names[0]);
      RunExtends(disk, here + [names[0]], at + [names[0]], stack, depth);
      var next := Run(disk, here + [names[0]], at + [names[0]], stack, depth).value.1;
      ExtendsAgain(disk, disk, next, at, at + [names[0]]);
      StillThere(disk, next, at);
      mid := EachCopied(next, here, names[1..], at, stack, depth, x);
      ExtendsAgain(disk, next, mid, at, at);
    }
  }

  /** A directory that succeeds has made its copy first, and then copied each name it held by then. */
  lemma {:induction false} DirectoryCopied(
    disk: Disk, source: Path, here: Path, at: Path, stack: set<Path>, depth: nat, x: string
  ) returns (mid: Disk)
    requires WellFormed(disk) && PlainPath(at) && RealPath(disk, source) == Some(here) && IsDirectory(disk, here)
    requires Succeeded(Run(disk, source, at, stack, depth))
    requires here + [x] in disk || here + [x] == at
    ensures depth > 0 && CanMake(disk, at) && WellFormed(mid) && Extends(disk, mid, at) && IsDirectory(mid, at)
    ensures here + [x] in mid && PlainPath(at + [x])
    ensures Succeeded(Run(mid, here + [x], at + [x], stack + {here}, depth - 1))
  {
    hide WellFormed, Extends, PlainPath, RealPath, RunAll;
    var made := disk[at := Directory];
    MakeExtends(disk, at);
    assert here + [x] in made;
    ListedIsPlain(made, here, at, x);
    mid := EachCopied(made, here, Names(made, here), at, stack + {here}, depth - 1, x);
    ExtendsAgain(disk, made, mid, at, at);
    KindKept(made, mid, at, at);
    StillThere(made, mid, at);
  }

  /** From a directory above the place it copies to, the copy goes on below itself: every level finds the next. */
  lemma {:induction false} ChaseNeverSucceeds(
    disk: Disk, source: Path, here: Path, at: Path, stack: set<Path>, depth: nat
  )
    requires WellFormed(disk) && PlainPath(at) && RealPath(disk, source) == Some(here) && here <= at && here != at
    requires IsDirectory(disk, Parent(at))
    ensures !Succeeded(Run(disk, source, at, stack, depth))
    decreases depth
  {
    hide WellFormed, Extends, PlainPath, RealPath, Run;
    BelowParent(disk, here, at);
    if Succeeded(Run(disk, source, at, stack, depth)) {
      var x := at[|here|];
      NextDown(disk, here, at);
      var mid := DirectoryCopied(disk, source, here, at, stack, depth, x);
      NextDown(mid, here, at);
      RealIsItself(mid, here + [x]);
      assert Parent(at + [x]) == at;
      ChaseNeverSucceeds(mid, here + [x], here + [x], at + [x], stack + {here}, depth - 1);
      assert false;
    }
  }

  lemma BelowParent(disk: Disk, here: Path, at: Path)
    requires WellFormed(disk) && here <= at && here != at && IsDirectory(disk, Parent(at))
    ensures IsDirectory(disk, here)
  {
    if here != Parent(at) {
      assert here <= Parent(at);
      AboveIsDirectory(disk, Parent(at), here);
    }
  }

  /** The next component towards `at` is there, or is `at` itself. */
  lemma NextDown(disk: Disk, here: Path, at: Path)
    requires WellFormed(disk) && here <= at && here != at && (IsDirectory(disk, Parent(at)) || IsDirectory(disk, at))
    ensures var x := at[|here|];
            && here + [x] <= at && here + [x] <= at + [x] && here + [x] != at + [x]
            && (here + [x] in disk || here + [x] == at)
            && (IsDirectory(disk, at) ==> IsReal(disk, here + [x]))
  {
    var x := at[|here|];
    var next := here + [x];
    assert next <= at;
    if next != at {
      assert next <= Parent(at) && Parent(at) <= at;
      if IsDirectory(disk, at) {
        AboveIsDirectory(disk, at, next);
      } else if next != Parent(at) {
        AboveIsDirectory(disk, Parent(at), next);
      }
    }
  }

  /** The same for a directory reached in any number of steps, at or above the destination. */
  lemma {:induction false} WalkNeverSucceeds(
    disk0: Disk, dest: Path, disk: Disk, source: Path, at: Path, stack: set<Path>, depth: nat, w: seq<Target>
  )
    requires Underway(disk0, dest, disk, at) && RealPath(disk0, source).Some?
    requires Walk(GraphOf(disk0), Resolves(RealPath(disk0, source).value), w)
    requires w[|w| - 1].Resolves? && w[|w| - 1].id <= dest && w[|w| - 1].id in disk0
    requires |w| == 1 ==> w[0].id != at
    ensures !Succeeded(Run(disk, source, at, stack, depth))
    decreases |w|
  {
    hide WellFormed, Extends, PlainPath, RealPath, Run, GraphOf;
    var here := RealPath(disk0, source).value;
    ResolvesAsBefore(disk0, disk, dest, source);
    if |w| == 1 {
      ChaseNeverSucceeds(disk, source, here, at, stack, depth);
    } else if Succeeded(Run(disk, source, at, stack, depth)) {
      var x := NameOfEntry(disk0, here, w);
      KindKept(disk0, disk, dest, here);
      StillThere(disk0, disk, dest);
      var mid := DirectoryCopied(disk, source, here, at, stack, depth, x);
      ExtendsAgain(disk0, disk, mid, dest, at);
      assert Parent(at + [x]) == at && dest <= at + [x];
      WalkGoesOn(GraphOf(disk0), w);
      WalkNeverSucceeds(disk0, dest, mid, here + [x], at + [x], stack + {here}, depth - 1, w[1..]);
      assert false;
    }
  }

  lemma ResolvesAsBefore(disk0: Disk, disk: Disk, dest: Path, source: Path)
    requires Extends(disk0, disk, dest) && RealPath(disk0, source).Some?
    ensures RealPath(disk, source) == RealPath(disk0, source)
  {
    ResolveKeeps(disk0, disk, dest, [], source, MAX_LINKS);
  }

  lemma WalkGoesOn(fs: Graph, w: seq<Target>)
    requires |w| > 1 && Walk(fs, w[0], w)
    ensures Walk(fs, w[1], w[1..])
  {
    forall i | 0 <= i < |w[1..]| - 1 ensures EntersTo(fs, w[1..][i], w[1..][i + 1]) {
      assert EntersTo(fs, w[i + 1], w[i + 2]);
    }
  }

  /** The name by which a walk goes on. */
  lemma NameOfEntry(disk: Disk, here: Path, w: seq<Target>) returns (x: string)
    requires |w| > 1 && Walk(GraphOf(disk), Resolves(here), w) && w[|w| - 1].Resolves?
    ensures IsDirectory(disk, here) && here + [x] in disk && TargetOf(disk, here + [x]) == w[1]
    ensures w[1].Resolves?
  {
    var fs := GraphOf(disk);
    assert EntersTo(fs, w[0], w[1]);
    var e :| e in fs[here].entries && e.target == w[1];
    var i :| 0 <= i < |Entries(disk, here)| && Entries(disk, here)[i] == e;
    x := e.name;
    if |w| > 2 {
      assert EntersTo(fs, w[1], w[2]);
    }
  }

  // ---- Without dead ends it never fails either ----

  /** Nothing is at `at` yet, or an empty directory. */
  predicate Vacant(disk: Disk, at: Path) { forall p :: p in disk && at <= p ==> p == at && disk[p].Directory? }

  /**
   * What the copy stands on, in a source without dead ends: outside the destination, something that unfolds; inside, a
   * file or directory the copy has made, with no directory at or below it being copied.
   */
  ghost predicate Sound(disk0: Disk, dest: Path, disk: Disk, here: Path, stack: set<Path>) {
    if dest <= here then here in disk && forall p :: p in stack ==> !(here <= p)
    else Unfold(GraphOf(disk0), Resolves(here), stack).Some? && forall p :: p in stack ==> !(dest <= p)
  }

  lemma SoundKind(disk0: Disk, dest: Path, disk: Disk, here: Path, stack: set<Path>)
    requires Vacant(disk0, dest) && Extends(disk0, disk, dest) && Sound(disk0, dest, disk, here, stack)
    ensures here !in stack && here in disk && (disk[here].Directory? || disk[here].Regular?)
    ensures !(dest <= here) ==> here in disk0 && disk[here] == disk0[here]
  {
  }

  lemma {:induction false} SoundEntry(disk0: Disk, dest: Path, disk: Disk, here: Path, stack: set<Path>, x: string)
    requires WellFormed(disk0) && WellFormed(disk) && Extends(disk0, disk, dest) && Vacant(disk0, dest)
    requires Sound(disk0, dest, disk, here, stack) && IsDirectory(disk, here) && here + [x] in disk
    ensures RealPath(disk, here + [x]).Some?
    ensures Sound(disk0, dest, disk, RealPath(disk, here + [x]).value, stack + {here})
  {
    hide WellFormed, RealPath, GraphOf, Unfold;
    SoundKind(disk0, dest, disk, here, stack);
    if dest <= here + [x] {
      assert dest <= here || dest == here + [x];
      RealIsItself(disk, here + [x]);
      assert forall p :: p in stack ==> here + [x] <= p ==> here <= p;
    } else {
      var q := UnfoldedEntry(disk0, here, stack, x);
      ResolvesAsBefore(disk0, disk, dest, here + [x]);
    }
  }

  lemma {:induction false} UnfoldedEntry(disk: Disk, here: Path, stack: set<Path>, x: string) returns (q: Path)
    requires IsDirectory(disk, here) && here + [x] in disk && Unfold(GraphOf(disk), Resolves(here), stack).Some?
    ensures RealPath(disk, here + [x]) == Some(q) && q in disk
    ensures Unfold(GraphOf(disk), Resolves(q), stack + {here}).Some?
  {
    hide Unfold, UnfoldAll, RealPath, Names, Entries;
    var fs, entries, names := GraphOf(disk), Entries(disk, here), Names(disk, here);
    UnfoldedDirectory(fs, here, stack);
    var i :| 0 <= i < |names| && names[i] == x;
    assert entries[i] == Entry(x, TargetOf(disk, here + [x]));
    UnfoldedTarget(fs, entries, stack + {here}, entries[i]);
    q := entries[i].target.id;
  }

  lemma UnfoldedDirectory(fs: Graph, here: Path, stack: set<Path>)
    requires Unfold(fs, Resolves(here), stack).Some? && fs[here].Dir?
    ensures UnfoldAll(fs, fs[here].entries, stack + {here}).Some?
  {
  }

  lemma {:induction false} UnfoldedTarget(fs: Graph, entries: seq<Entry>, stack: set<Path>, e: Entry)
    requires UnfoldAll(fs, entries, stack).Some? && e in entries
    ensures Unfold(fs, e.target, stack).Some? && e.target.Resolves? && e.target.id in fs
  {
    if Unfold(fs, e.target, stack).None? {
      OneFails(fs, entries, stack, e);
    }
  }

  lemma {:induction false} NeverFails(
    disk0: Disk, dest: Path, disk: Disk, source: Path, here: Path, at: Path, stack: set<Path>, depth: nat
  )
    requires Underway(disk0, dest, disk, at) && Vacant(disk0, dest) && Vacant(disk, at)
    requires RealPath(disk, source) == Some(here) && Sound(disk0, dest, disk, here, stack)
    requires at in disk ==> IsDirectory(disk, here)
    ensures !Failed(Run(disk, source, at, stack, depth))
    decreases depth, 0
  {
    hide WellFormed, Extends, PlainPath, RealPath, RunAll, Sound, Vacant, CanMake, CanWrite, Open, Names;
    SoundKind(disk0, dest, disk, here, stack);
    PlaceIsFree(disk, at);
    if disk[here].Directory? && depth > 0 {
      var made := disk[at := Directory];
      MakeExtends(disk, at);
      ExtendsAgain(disk0, disk, made, dest, at);
      KindKept(disk, made, at, here);
      StaysSound(disk0, dest, disk, made, here, stack);
      forall x | x in Names(made, here) ensures Open(disk0, dest, made, here, at, stack + {here}, x) {
        OpenAtFirst(disk0, dest, disk, here, at, stack, x);
      }
      LoopNeverFails(disk0, dest, made, here, Names(made, here), at, stack + {here}, depth - 1);
    }
  }

  lemma PlaceIsFree(disk: Disk, at: Path)
    requires at != [] && IsDirectory(disk, Parent(at)) && Vacant(disk, at)
    ensures CanMake(disk, at) && (at !in disk ==> CanWrite(disk, at))
  {
  }

  /** An entry still to be copied: it resolves to something sound, and its place is free. */
  ghost predicate Open(disk0: Disk, dest: Path, disk: Disk, here: Path, at: Path, stack: set<Path>, x: string) {
    && here + [x] in disk && RealPath(disk, here + [x]).Some?
    && Sound(disk0, dest, disk, RealPath(disk, here + [x]).value, stack)
    && at + [x] !in disk && Vacant(disk, at + [x])
  }

  lemma OpenAtFirst(disk0: Disk, dest: Path, disk: Disk, here: Path, at: Path, stack: set<Path>, x: string)
    requires WellFormed(disk0) && Vacant(disk0, dest) && Vacant(disk, at)
    requires WellFormed(disk[at := Directory]) && Extends(disk0, disk[at := Directory], dest)
    requires Sound(disk0, dest, disk[at := Directory], here, stack)
    requires IsDirectory(disk[at := Directory], here) && here + [x] in disk[at := Directory]
    ensures Open(disk0, dest, disk[at := Directory], here, at, stack + {here}, x)
  {
    hide WellFormed, Extends, Vacant, RealPath, Sound;
    SoundEntry(disk0, dest, disk[at := Directory], here, stack, x);
    VacantBelow(disk, at, x);
  }

  lemma VacantBelow(disk: Disk, at: Path, x: string)
    requires Vacant(disk, at)
    ensures at + [x] !in disk[at := Directory] && Vacant(disk[at := Directory], at + [x])
  {
    assert at <= at + [x];
    assert forall p :: p in disk ==> at + [x] <= p ==> at <= p && p != at;
  }

  lemma StaysSound(disk0: Disk, dest: Path, a: Disk, b: Disk, here: Path, stack: set<Path>)
    requires Sound(disk0, dest, a, here, stack) && forall p :: p in a ==> p in b
    ensures Sound(disk0, dest, b, here, stack)
  {
    hide Unfold, GraphOf;
  }

  /** Copying one entry leaves the others open. */
  lemma StaysOpen(
    disk0: Disk, dest: Path, a: Disk, b: Disk, here: Path, at: Path, stack: set<Path>, x: string, y: string
  )
    requires Open(disk0, dest, a, here, at, stack, y) && Extends(a, b, at + [x]) && x != y
    ensures Open(disk0, dest, b, here, at, stack, y)
  {
    hide Sound, RealPath;
    StillThere(a, b, at + [x]);
    ResolvesAsBefore(a, b, at + [x], here + [y]);
    StaysSound(disk0, dest, a, b, RealPath(a, here + [y]).value, stack);
    assert (at + [x])[|at|] == x && (at + [y])[|at|] == y;
    forall p | p in b && at + [y] <= p ensures p in a {
      assert p[|at|] == y;
    }
  }

  lemma {:induction false} LoopNeverFails(
    disk0: Disk, dest: Path, disk: Disk, here: Path, names: seq<string>, at: Path, stack: set<Path>, depth: nat
  )
    requires Underway(disk0, dest, disk, at) && IsDirectory(disk, at) && Vacant(disk0, dest) && Distinct(names)
    requires forall x :: x in names ==> Open(disk0, dest, disk, here, at, stack, x)
    ensures !Failed(RunAll(disk, here, names, at, stack, depth))
    decreases depth, 1 + |names|
  {
    hide WellFormed, Extends, PlainPath, RealPath, Run, Sound, Vacant;
    if names != [] {
      var x := names[0];
      assert Open(disk0, dest, disk, here, at, stack, x);
      ListedIsPlain(disk, here, at, x);
      assert Parent(at + [x]) == at && dest <= at + [x];
      NeverFails(disk0, dest, disk, here + [x], RealPath(disk, here + [x]).value, at + [x], stack, depth);
      var r := Run(disk, here + [x], at + [x], stack, depth);
      if r.Some? {
        var next := r.value.1;
        RunExtends(disk, here + [x], at + [x], stack, depth);
        ExtendsAgain(disk0, disk, next, dest, at + [x]);
        KindKept(disk, next, at + [x], at);
        KindKept(disk, next, at + [x], Parent(at));
        forall y | y in names[1..] ensures Open(disk0, dest, next, here, at, stack, y) {
          assert y in names && y != x;
          StaysOpen(disk0, dest, disk, next, here, at, stack, x, y);
        }
        LoopNeverFails(disk0, dest, next, here, names[1..], at, stack, depth);
      }
    }
  }

  // ---- When the copy ends ----

  /** The copy reads a directory at or above its destination. */
  ghost predicate ReadsAbove(disk: Disk, source: Path, dest: Path) {
    exists w :: Walk(GraphOf(disk), TargetOf(disk, source), w) && AtOrAbove(disk, w[|w| - 1], dest)
  }

  predicate AtOrAbove(disk: Disk, t: Target, dest: Path) { t.Resolves? && t.id <= dest && IsDirectory(disk, t.id) }

  /** A source without dead ends, and a destination that is not there yet or empty. */
  ghost predicate Ready(disk: Disk, source: Path, dest: Path) {
    && WellFormed(disk) && PlainPath(dest) && dest != [] && IsDirectory(disk, Parent(dest)) && Vacant(disk, dest)
    && Unfold(GraphOf(disk), TargetOf(disk, source), {}).Some?
    && (dest in disk ==> IsDirectory(disk, TargetOf(disk, source).id))
  }

  /** Reading a directory above its destination, the copy passes every depth. */
  lemma {:induction false} CopyRunsAway(disk: Disk, source: Path, dest: Path, depth: nat)
    requires Ready(disk, source, dest) && ReadsAbove(disk, source, dest) && RealPath(disk, source) != Some(dest)
    ensures Run(disk, source, dest, {}, depth).None?
  {
    hide WellFormed, Extends, PlainPath, RealPath, Run, GraphOf, Unfold;
    SameExtends(disk, dest);
    var t := TargetOf(disk, source);
    SourceResolves(disk, source);
    var w :| Walk(GraphOf(disk), t, w) && AtOrAbove(disk, w[|w| - 1], dest);
    WalkNeverSucceeds(disk, dest, disk, source, dest, {}, depth, w);
    NeverFails(disk, dest, disk, source, t.id, dest, {}, depth);
  }

  lemma SourceResolves(disk: Disk, source: Path)
    requires Unfold(GraphOf(disk), TargetOf(disk, source), {}).Some?
    ensures RealPath(disk, source) == Some(TargetOf(disk, source).id) && TargetOf(disk, source).id in disk
  {
  }

  lemma {:induction false} NoDeadEnds(disk: Disk, source: Path, w: seq<Target>, t: Target)
    requires Unfold(GraphOf(disk), TargetOf(disk, source), {}).Some?
    requires Walk(GraphOf(disk), TargetOf(disk, source), w) && EntersTo(GraphOf(disk), w[|w| - 1], t)
    ensures Walk(GraphOf(disk), TargetOf(disk, source), w + [t]) && t.Resolves? && t.id in disk
  {
    hide Unfold, GraphOf, EntersTo, RealPath;
    var fs, longer := GraphOf(disk), w + [t];
    forall i | 0 <= i < |longer| - 1 ensures EntersTo(fs, longer[i], longer[i + 1]) {
      if i < |w| - 1 {
        assert EntersTo(fs, w[i], w[i + 1]);
      }
    }
    FailsExactly(fs, TargetOf(disk, source));
    assert longer[|longer| - 1] == t;
    assert !DeadEnd(fs, {}, longer);
  }

  /** A source without dead ends that reads nothing above a vacant destination is guarded. */
  lemma {:induction false} NothingAboveIsGuarded(disk: Disk, source: Path, dest: Path)
    requires Ready(disk, source, dest) && !ReadsAbove(disk, source, dest)
    ensures Steady(disk, source, dest) && Guarded(disk, TargetOf(disk, source), dest)
  {
    hide WellFormed, PlainPath, RealPath, Unfold, Looks;
    var fs, t := GraphOf(disk), TargetOf(disk, source);
    SourceResolves(disk, source);
    assert Walk(fs, t, [t]);
    NotAbove(disk, source, dest, [t]);
    forall w: seq<Target> | Walk(fs, t, w) ensures SafeTarget(disk, w[|w| - 1], dest) {
      var last := w[|w| - 1];
      if last.Resolves? && IsDirectory(disk, last.id) {
        NotAbove(disk, source, dest, w);
        forall x | x in Names(disk, last.id) ensures Steady(disk, last.id + [x], dest) {
          EntryOfName(disk, last.id, x);
          var next := TargetOf(disk, last.id + [x]);
          NoDeadEnds(disk, source, w, next);
          NotAbove(disk, source, dest, w + [next]);
        }
      }
    }
  }

  lemma NotAbove(disk: Disk, source: Path, dest: Path, w: seq<Target>)
    requires !ReadsAbove(disk, source, dest) && Walk(GraphOf(disk), TargetOf(disk, source), w) && Vacant(disk, dest)
    requires w[|w| - 1].Resolves? && w[|w| - 1].id in disk
    ensures !(dest <= w[|w| - 1].id) && (IsDirectory(disk, w[|w| - 1].id) ==> !(w[|w| - 1].id <= dest))
  {
    hide GraphOf, TargetOf;
    assert !AtOrAbove(disk, w[|w| - 1], dest);
  }

  lemma {:induction false} OntoItself(disk: Disk, source: Path, dest: Path)
    requires Ready(disk, source, dest) && RealPath(disk, source) == Some(dest)
    ensures Run(disk, source, dest, {}, 1) == Some((true, disk))
  {
    hide WellFormed, PlainPath, RealPath, Unfold, GraphOf;
    SourceResolves(disk, source);
    assert disk[dest := Directory] == disk;
    forall x ensures dest + [x] !in disk {
      assert dest <= dest + [x];
    }
    NamesAreUnique(disk, dest, []);
  }

  /**
   * Copying a source without dead ends to a place that is not there yet or empty ends if and only if no directory it
   * reads is at or above that place; onto itself an empty directory is copied at once.
   */
  lemma {:induction false} EndsExactly(disk: Disk, source: Path, dest: Path)
    requires Ready(disk, source, dest)
    ensures (exists depth :: Run(disk, source, dest, {}, depth).Some?) <==>
              RealPath(disk, source) == Some(dest) || !ReadsAbove(disk, source, dest)
  {
    hide Run, WellFormed, PlainPath, RealPath, Unfold, GraphOf, ReadsAbove, Ready, Steady, Guarded;
    if RealPath(disk, source) == Some(dest) {
      OntoItself(disk, source, dest);
    } else if ReadsAbove(disk, source, dest) {
      forall depth ensures Run(disk, source, dest, {}, depth).None? {
        CopyRunsAway(disk, source, dest, depth);
      }
    } else {
      NothingAboveIsGuarded(disk, source, dest);
      ReadyParts(disk, source, dest);
      GuardedCopyIsUnfolding(disk, source, dest, |GraphOf(disk)|);
    }
  }

  lemma ReadyParts(disk: Disk, source: Path, dest: Path)
    requires Ready(disk, source, dest)
    ensures WellFormed(disk) && PlainPath(dest) && dest != [] && IsDirectory(disk, Parent(dest))
  {
  }

  // ---- The input ----

  predicate OnlyFilesAndDirectories(disk: Disk) { forall p :: p in disk ==> disk[p].Directory? || disk[p].Regular? }

  /** Without links or special files everything unfolds. */
  lemma {:induction false} PlainUnfolds(disk: Disk, here: Path, stack: set<Path>)
    requires WellFormed(disk) && OnlyFilesAndDirectories(disk) && here in disk && forall p :: p in stack ==>
               !(here <= p)
    ensures Unfold(GraphOf(disk), Resolves(here), stack).Some?
    decreases Unvisited(GraphOf(disk), stack)
  {
    hide WellFormed, RealPath, Names, Entries;
    var fs := GraphOf(disk);
    if disk[here].Directory? {
      DescendsOnce(fs, stack, here);
      var names, entries := Names(disk, here), Entries(disk, here);
      forall i | 0 <= i < |entries| ensures Unfold(fs, entries[i].target, stack + {here}).Some? {
        var q := here + [names[i]];
        assert names[i] in names && q in disk;
        RealIsItself(disk, q);
        assert forall p :: p in stack ==> q <= p ==> here <= p;
        PlainUnfolds(disk, q, stack + {here});
      }
      AllUnfold(fs, entries, stack + {here});
    }
  }

  lemma {:induction false} AllUnfold(fs: Graph, entries: seq<Entry>, stack: set<Path>)
    requires forall i :: 0 <= i < |entries| ==> Unfold(fs, entries[i].target, stack).Some?
    ensures UnfoldAll(fs, entries, stack).Some?
    decreases |entries|
  {
    hide Unfold;
    if entries != [] {
      AllUnfold(fs, entries[..|entries| - 1], stack);
    }
  }

  /** No cycle, no link, no special file: copying a directory to a new place inside it passes every depth. */
  lemma {:induction false} CopyIntoItselfRunsAway(disk: Disk, source: Path, dest: Path, depth: nat)
    requires WellFormed(disk) && OnlyFilesAndDirectories(disk) && PlainPath(dest) && dest != []
    requires IsDirectory(disk, Parent(dest)) && Vacant(disk, dest) && source <= dest && source != dest
    ensures Run(disk, source, dest, {}, depth).None?
  {
    hide Run, Unfold, GraphOf, RealPath;
    BelowParent(disk, source, dest);
    RealIsItself(disk, source);
    PlainUnfolds(disk, source, {});
    var w := [Resolves(source)];
    assert Walk(GraphOf(disk), TargetOf(disk, source), w) && AtOrAbove(disk, w[|w| - 1], dest);
    CopyRunsAway(disk, source, dest, depth);
  }

  /** The directories above `dest`, and nothing else. */
  function Above(dest: Path): Disk { map k | 0 <= k < |dest| :: dest[..k] := Directory }

  lemma AboveIsWellFormed(dest: Path)
    requires PlainPath(dest) && dest != []
    ensures WellFormed(Above(dest)) && OnlyFilesAndDirectories(Above(dest)) && Vacant(Above(dest), dest)
    ensures IsDirectory(Above(dest), Parent(dest))
  {
    var disk := Above(dest);
    assert dest[..0] == [] && dest[..|dest| - 1] == Parent(dest);
    assert dest[..0] in disk && dest[..|dest| - 1] in disk;
    forall p | p in disk ensures PlainPath(p) && p == dest[..|p|] && |p| < |dest|
        && (p != [] ==> IsDirectory(disk, Parent(p))) {
      var k :| 0 <= k < |dest| && p == dest[..k];
      if k > 0 {
        assert Parent(p) == dest[..k - 1];
        assert dest[..k - 1] in disk;
      }
    }
  }

  const WORKSPACES: Path := ["home", "code", "hive", ".hive-desktop", "config", "workspaces"]

  /** Agent workspaces kept in ~/code, with the checkout at ~/code/hive: the copy of ~/code never ends. */
  lemma CheckoutInsideWorkspaces(depth: nat)
    ensures Run(Above(WORKSPACES), ["home", "code"], WORKSPACES, {}, depth).None?
  {
    hide Run, Above;
    assert WORKSPACES[..2] == ["home", "code"];
    AboveIsWellFormed(WORKSPACES);
    CopyIntoItselfRunsAway(Above(WORKSPACES), ["home", "code"], WORKSPACES, depth);
  }
}
