/**
 * The copy as it runs (copyTreeMaterialized in cmd/devtools/instance.go): it reads and writes one file system, and
 * lists a directory only after making its copy.
 */
module CopyRun {
  import opened CopyTree
  import opened FileSystem
  import opened Text

  // ---- The file system as a graph ----

  function TargetOf(disk: Disk, p: Path): Target {
    match RealPath(disk, p) case None => Dangling case Some(q) => Resolves(q)
  }

  ghost function Entries(disk: Disk, p: Path): (entries: seq<Entry>)
    ensures |entries| == |Names(disk, p)|
    ensures forall i :: 0 <= i < |entries| ==>
              entries[i] == Entry(Names(disk, p)[i], TargetOf(disk, p + [Names(disk, p)[i]]))
  {
    var names := Names(disk, p);
    seq(|names|, i requires 0 <= i < |names| => Entry(names[i], TargetOf(disk, p + [names[i]])))
  }

  ghost function NodeOf(disk: Disk, p: Path): Node
    requires IsReal(disk, p)
  {
    match disk[p]
    case Directory => Dir(Entries(disk, p))
    case Regular(content) => File(content)
    case _ => Special
  }

  /** What is there, with every symlink replaced by what it points at. */
  ghost function GraphOf(disk: Disk): (fs: Graph)
    ensures forall p :: p in fs <==> IsReal(disk, p)
    ensures forall p :: p in fs ==> fs[p] == NodeOf(disk, p)
  {
    map p | p in disk && IsReal(disk, p) :: NodeOf(disk, p)
  }

  // ---- The copy ----

  /** `os.MkdirAll` at `at`, whose parent is there. */
  predicate CanMake(disk: Disk, at: Path) {
    if at in disk then disk[at].Directory? else at != [] && IsDirectory(disk, Parent(at))
  }

  /** Opening `at` for writing, with its parent there. */
  predicate CanWrite(disk: Disk, at: Path) {
    if at in disk then disk[at].Regular? else at != [] && IsDirectory(disk, Parent(at))
  }

  /** `copyFile`: the destination is emptied before the source is read. */
  function Written(source: Path, at: Path, content: string): string { if source == at then "" else content }

  /**
   * The outcome of copying `source` to `at` while the directories in `stack` are being copied: whether it succeeds, and
   * the file system it leaves; or None if it has to go more than `depth` directories deep.
   */
  ghost function Run(disk: Disk, source: Path, at: Path, stack: set<Path>, depth: nat): Option<(bool, Disk)>
    decreases depth, 0
  {
    match RealPath(disk, source)
    case None => Some((false, disk))
    case Some(here) =>
      if here in stack || here !in disk then Some((false, disk))
      else
        match disk[here]
        case Directory =>
          if depth == 0 then None
          else if !CanMake(disk, at) then Some((false, disk))
          else
            var made := disk[at := Directory];
            RunAll(made, here, Names(made, here), at, stack + {here}, depth - 1)
        case Regular(content) =>
          if CanWrite(disk, at) then Some((true, disk[at := Regular(Written(here, at, content))]))
              else Some((false, disk))
        case _ => Some((false, disk))
  }

  ghost function RunAll(
    disk: Disk, here: Path, names: seq<string>, at: Path, stack: set<Path>, depth: nat
  ): Option<(bool, Disk)>
    decreases depth, 1 + |names|
  {
    if names == [] then Some((true, disk))
    else
      match Run(disk, here + [names[0]], at + [names[0]], stack, depth)
      case None => None
      case Some((false, after)) => Some((false, after))
      case Some((true, after)) => RunAll(after, here, names[1..], at, stack, depth)
  }

  predicate Succeeded(r: Option<(bool, Disk)>) { r.Some? && r.value.0 }

  predicate Failed(r: Option<(bool, Disk)>) { r.Some? && !r.value.0 }

  class Copier {
    var disk: Disk
    var stack: set<Path>

    constructor (disk: Disk)
      ensures this.disk == disk && stack == {}
    {
      this.disk, stack := disk, {};
    }

    ghost predicate Ended(r: Option<bool>, outcome: Option<(bool, Disk)>)
      reads this
    {
      if outcome.None? then r.None? else r == Some(outcome.value.0) && disk == outcome.value.1
    }

    /**
     * `copyTreeMaterialized`, as deep as `depth` directories. Whether it succeeds, fails or has to go deeper, the stack
     * is left as it was found.
     */
    method Copy(source: Path, at: Path, depth: nat) returns (r: Option<bool>)
      modifies this
      ensures stack == old(stack)
      ensures Ended(r, Run(old(disk), source, at, old(stack), depth))
      decreases depth, 0
    {
      var resolved := RealPath(disk, source);
      if resolved.None? || resolved.value in stack || resolved.value !in disk {
        return Some(false);
      }
      var here := resolved.value;
      match disk[here] {
        case Directory =>
          if depth == 0 { return None; }
          if !CanMake(disk, at) { return Some(false); }
          ghost var before := stack;
          stack := stack + {here};
          disk := disk[at := Directory];
          var names := ReadDir(disk, here);
          r := CopyEntries(here, names, at, depth - 1);
          stack := stack - {here};
          assert stack == before;
        case Regular(content) =>
          if !CanWrite(disk, at) { return Some(false); }
          disk := disk[at := Regular(Written(here, at, content))];
          r := Some(true);
        case _ => r := Some(false);
      }
    }

    /** The loop over a directory's entries. */
    method CopyEntries(here: Path, names: seq<string>, at: Path, depth: nat) returns (r: Option<bool>)
      modifies this
      ensures stack == old(stack)
      ensures Ended(r, RunAll(old(disk), here, names, at, old(stack), depth))
      decreases depth, 1
    {
      hide Run;
      assert names[0..] == names;
      for i := 0 to |names|
        invariant stack == old(stack)
        invariant RunAll(disk, here, names[i..], at, stack, depth) ==
                    RunAll(old(disk), here, names, at, old(stack), depth)
      {
        assert names[i..][0] == names[i] && names[i..][1..] == names[i + 1..];
        r := Copy(here + [names[i]], at + [names[i]], depth);
        if r != Some(true) { return r; }
      }
      r := Some(true);
    }
  }

  // ---- What a copy leaves alone ----

  lemma MakeExtends(disk: Disk, at: Path)
    requires WellFormed(disk) && PlainPath(at) && CanMake(disk, at)
    ensures WellFormed(disk[at := Directory]) && Extends(disk, disk[at := Directory], at)
  {
  }

  lemma WriteExtends(disk: Disk, at: Path, content: string)
    requires WellFormed(disk) && PlainPath(at) && CanWrite(disk, at)
    ensures WellFormed(disk[at := Regular(content)]) && Extends(disk, disk[at := Regular(content)], at)
  {
  }

  lemma ListedIsPlain(disk: Disk, here: Path, at: Path, name: string)
    requires WellFormed(disk) && PlainPath(at) && here + [name] in disk
    ensures PlainPath(at + [name])
  {
    assert (here + [name])[|here|] == name;
  }

  /** A copy adds directories and files at or below its destination, rewrites files there, and does nothing else. */
  lemma {:induction false} RunExtends(disk: Disk, source: Path, at: Path, stack: set<Path>, depth: nat)
    requires WellFormed(disk) && PlainPath(at) && Run(disk, source, at, stack, depth).Some?
    ensures var after := Run(disk, source, at, stack, depth).value.1;
            WellFormed(after) && Extends(disk, after, at)
    decreases depth, 0
  {
    hide WellFormed, Extends, PlainPath, RealPath;
    assert Extends(disk, disk, at) by { SameExtends(disk, at); }
    match RealPath(disk, source) {
      case None =>
      case Some(here) =>
        if here !in stack && here in disk {
          if disk[here].Directory? && CanMake(disk, at) {
            var made := disk[at := Directory];
            MakeExtends(disk, at);
            RunAllExtends(made, here, Names(made, here), at, stack + {here}, depth - 1);
            ExtendsAgain(disk, made, Run(disk, source, at, stack, depth).value.1, at, at);
          } else if disk[here].Regular? && CanWrite(disk, at) {
            WriteExtends(disk, at, Written(here, at, disk[here].content));
          }
        }
    }
  }

  lemma SameExtends(disk: Disk, at: Path)
    ensures Extends(disk, disk, at)
  {
  }

  lemma {:induction false} RunAllExtends(
    disk: Disk, here: Path, names: seq<string>, at: Path, stack: set<Path>, depth: nat
  )
    requires WellFormed(disk) && PlainPath(at) && (forall x :: x in names ==> here + [x] in disk)
    requires RunAll(disk, here, names, at, stack, depth).Some?
    ensures var after := RunAll(disk, here, names, at, stack, depth).value.1;
            WellFormed(after) && Extends(disk, after, at)
    decreases depth, 1 + |names|
  {
    hide WellFormed, Extends, PlainPath, Run;
    if names == [] {
      SameExtends(disk, at);
    } else {
      assert here + [names[0]] in disk;
      ListedIsPlain(disk, here, at, names[0]);
      RunExtends(disk, here + [names[0]], at + [names[0]], stack, depth);
      var (ok, after) := Run(disk, here + [names[0]], at + [names[0]], stack, depth).value;
      SameExtends(disk, at);
      ExtendsAgain(disk, disk, after, at, at + [names[0]]);
      if ok {
        StillThere(disk, after, at);
        RunAllExtends(after, here, names[1..], at, stack, depth);
        ExtendsAgain(disk, after, RunAll(disk, here, names, at, stack, depth).value.1, at, at);
      }
    }
  }

  lemma StillThere(a: Disk, b: Disk, at: Path)
    requires Extends(a, b, at)
    ensures forall p :: p in a ==> p in b
  {
  }
}
