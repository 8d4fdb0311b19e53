/** Where nothing the copy reads lies at, below or above its destination, it makes exactly the unfolding there. */
module CopyGuarded {
  import opened Collections
  import opened CopyRun
  import opened CopyTree
  import opened FileSystem
  import opened Text

  /** What a path resolves to, or its failure to resolve, has nothing to do with what lies at or below `dest`. */
  predicate Steady(disk: Disk, p: Path, dest: Path) {
    match RealPath(disk, p)
    case Some(q) => !(dest <= q)
    case None => !Looks(disk, [], p, MAX_LINKS, dest)
  }

  /** A directory read is not above `dest`, and its entries are steady. */
  ghost predicate SafeTarget(disk: Disk, t: Target, dest: Path) {
    t.Resolves? && IsDirectory(disk, t.id) ==>
      !(t.id <= dest) && forall x :: x in Names(disk, t.id) ==> Steady(disk, t.id + [x], dest)
  }

  ghost predicate Guarded(disk: Disk, t: Target, dest: Path) {
    forall w :: Walk(GraphOf(disk), t, w) ==> SafeTarget(disk, w[|w| - 1], dest)
  }

  lemma SteadyResolves(disk0: Disk, disk: Disk, dest: Path, p: Path)
    requires WellFormed(disk0) && Extends(disk0, disk, dest) && Steady(disk0, p, dest)
    ensures RealPath(disk, p) == RealPath(disk0, p)
  {
    if RealPath(disk0, p).Some? {
      ResolveKeeps(disk0, disk, dest, [], p, MAX_LINKS);
    } else {
      ResolveIgnores(disk0, disk, dest, [], p, MAX_LINKS);
    }
  }

  lemma {:induction false} GuardedBelow(disk: Disk, here: Path, x: string, dest: Path)
    requires IsDirectory(disk, here) && x in Names(disk, here) && Guarded(disk, Resolves(here), dest)
    ensures Guarded(disk, TargetOf(disk, here + [x]), dest)
  {
    var fs, t := GraphOf(disk), TargetOf(disk, here + [x]);
    EntryOfName(disk, here, x);
    forall w | Walk(fs, t, w) ensures SafeTarget(disk, w[|w| - 1], dest) {
      var longer := [Resolves(here)] + w;
      assert Walk(fs, Resolves(here), longer) by {
        forall i | 0 <= i < |longer| - 1 ensures EntersTo(fs, longer[i], longer[i + 1]) {
          if i > 0 {
            assert EntersTo(fs, w[i - 1], w[i]);
          }
        }
      }
      assert longer[|longer| - 1] == w[|w| - 1];
    }
  }

  lemma EntryOfName(disk: Disk, here: Path, x: string)
    requires IsDirectory(disk, here) && x in Names(disk, here)
    ensures EntersTo(GraphOf(disk), Resolves(here), TargetOf(disk, here + [x]))
  {
    var i :| 0 <= i < |Names(disk, here)| && Names(disk, here)[i] == x;
    assert Entries(disk, here)[i] == Entry(x, TargetOf(disk, here + [x]));
  }

  lemma NamesOfEntries(disk: Disk, here: Path)
    ensures UniqueNames(Entries(disk, here))
  {
    var names := Names(disk, here);
    assert Distinct(names);
  }

  /** The directory lists as it did before the copy began. */
  lemma SameListing(disk0: Disk, disk: Disk, dest: Path, here: Path)
    requires Extends(disk0, disk, dest) && !(dest <= here) && !(here <= dest)
    ensures Names(disk, here) == Names(disk0, here)
  {
    forall x ensures here + [x] in disk <==> here + [x] in disk0 {
      assert dest <= here + [x] ==> dest == here + [x] || dest <= here;
    }
    SameNames(disk, disk0, here);
  }

  /** What the copy should come to, from a state it has reached. */
  ghost predicate AsUnfolded(r: Option<(bool, Disk)>, disk: Disk, tree: Option<Tree>, at: Path) {
    && r.Some?
    && (r.value.0 <==> tree.Some? && Fits(disk, Layout(tree.value, at)))
    && (r.value.0 ==> r.value.1 == disk + Layout(tree.value, at))
  }

  ghost predicate AllAsUnfolded(r: Option<(bool, Disk)>, disk: Disk, children: Option<seq<(string, Tree)>>, at: Path) {
    && r.Some?
    && (r.value.0 <==> children.Some? && Fits(disk, LayoutAll(children.value, at)))
    && (r.value.0 ==> r.value.1 == disk + LayoutAll(children.value, at))
  }

  /** A state of the copy: the file system it started from, extended at and below its destination. */
  ghost predicate Underway(disk0: Disk, dest: Path, disk: Disk, at: Path) {
    && WellFormed(disk0) && WellFormed(disk) && Extends(disk0, disk, dest)
    && dest <= at && PlainPath(at) && at != [] && IsDirectory(disk, Parent(at))
  }

  lemma FileAsUnfolded(disk: Disk, here: Path, at: Path, content: string)
    requires here != at && at != [] && IsDirectory(disk, Parent(at))
    ensures CanWrite(disk, at) <==> Fits(disk, Layout(Leaf(content), at))
    ensures disk[at := Regular(Written(here, at, content))] == disk + Layout(Leaf(content), at)
  {
  }

  lemma {:induction false} GuardedRun(
    disk0: Disk, dest: Path, disk: Disk, source: Path, at: Path, stack: set<Path>, depth: nat
  )
    requires Underway(disk0, dest, disk, at)
    requires Steady(disk0, source, dest) && Guarded(disk0, TargetOf(disk0, source), dest)
    requires depth >= Unvisited(GraphOf(disk0), stack)
    ensures AsUnfolded(Run(disk, source, at, stack, depth), disk,
              Unfold(GraphOf(disk0), TargetOf(disk0, source), stack), at)
    decreases depth, 0
  {
    hide Fits, Layout, LayoutAll, WellFormed, Guarded, UnfoldAll, RunAll;
    var fs, t := GraphOf(disk0), TargetOf(disk0, source);
    SteadyResolves(disk0, disk, dest, source);
    RootIsReal(disk0);
    ResolvedIsReal(disk0, [], source, MAX_LINKS);
    if t.Resolves? && t.id !in stack {
      var here := t.id;
      assert disk[here] == disk0[here];
      match disk0[here] {
        case Regular(content) => FileAsUnfolded(disk, here, at, content);
        case Directory =>
          DescendsOnce(fs, stack, here);
          GuardedDirectory(disk0, dest, disk, here, at, stack, depth);
        case _ =>
      }
    }
  }

  lemma RootIsReal(disk: Disk)
    requires WellFormed(disk)
    ensures IsReal(disk, [])
  {
  }

  lemma {:induction false} GuardedDirectory(
    disk0: Disk, dest: Path, disk: Disk, here: Path, at: Path, stack: set<Path>, depth: nat
  )
    requires Underway(disk0, dest, disk, at)
    requires IsDirectory(disk0, here) && !(dest <= here) && Guarded(disk0, Resolves(here), dest) && here !in stack
    requires depth > Unvisited(GraphOf(disk0), stack + {here})
    ensures var made, children := disk[at := Directory],
              UnfoldAll(GraphOf(disk0), Entries(disk0, here), stack + {here});
            var r := if CanMake(disk, at) then RunAll(made, here, Names(made, here), at, stack + {here}, depth - 1)
                     else Some((false, disk));
            AsUnfolded(r, disk, if children.None? then None else Some(Branch(children.value)), at)
    decreases depth - 1, 2 + |Names(disk0, here)|
  {
    hide Fits, Layout, LayoutAll, WellFormed, Extends, Guarded, UnfoldAll, Unfold, Run, RunAll, Steady;
    hide GraphOf, Entries, Names, Unvisited, TargetOf;
    var fs, entries, made := GraphOf(disk0), Entries(disk0, here), disk[at := Directory];
    var names, inner := Names(disk0, here), stack + {here};
    HereIsSafe(disk0, here, dest);
    if CanMake(disk, at) {
      MakeExtends(disk, at);
      ExtendsAgain(disk0, disk, made, dest, at);
      SameListing(disk0, made, dest, here);
      forall x | x in names ensures Steady(disk0, here + [x], dest)
          && Guarded(disk0, TargetOf(disk0, here + [x]), dest) {
        GuardedBelow(disk0, here, x, dest);
      }
      StartEmpty(made, fs, inner, at);
      assert entries[..0] == [] && names[0..] == names;
      GuardedRunAll(disk0, dest, made, here, 0, made, at, inner, depth - 1);
    }
    var children := UnfoldAll(fs, entries, inner);
    if children.Some? {
      LaidOut(disk, at, children.value);
    }
  }

  lemma HereIsSafe(disk: Disk, here: Path, dest: Path)
    requires IsDirectory(disk, here) && Guarded(disk, Resolves(here), dest)
    ensures !(here <= dest) && forall x :: x in Names(disk, here) ==> Steady(disk, here + [x], dest)
  {
    assert Walk(GraphOf(disk), Resolves(here), [Resolves(here)]);
    assert SafeTarget(disk, Resolves(here), dest);
  }

  /** The entries from the i-th on, with the earlier ones laid out over `start`. */
  lemma {:induction false} GuardedRunAll(
    disk0: Disk, dest: Path, start: Disk, here: Path, i: nat, disk: Disk, at: Path, stack: set<Path>, depth: nat
  )
    requires Underway(disk0, dest, disk, at) && IsDirectory(disk, at) && IsDirectory(disk0, here)
    requires i <= |Names(disk0, here)| && depth >= Unvisited(GraphOf(disk0), stack)
    requires forall x :: x in Names(disk0, here) ==>
               Steady(disk0, here + [x], dest) && Guarded(disk0, TargetOf(disk0, here + [x]), dest)
    requires var done := UnfoldAll(GraphOf(disk0), Entries(disk0, here)[..i], stack);
             done.Some? && Fits(start, LayoutAll(done.value, at)) && disk == start + LayoutAll(done.value, at)
    ensures AllAsUnfolded(RunAll(disk, here, Names(disk0, here)[i..], at, stack, depth), start,
                          UnfoldAll(GraphOf(disk0), Entries(disk0, here), stack), at)
    decreases depth, 1 + |Names(disk0, here)| - i
  {
    hide Fits, Layout, LayoutAll, WellFormed, Extends, Guarded, UnfoldAll, Unfold, Run, Steady;
    hide GraphOf, Entries, Names, Unvisited, TargetOf, PlainPath;
    var fs, entries, names := GraphOf(disk0), Entries(disk0, here), Names(disk0, here);
    if i == |names| {
      assert entries[..i] == entries && names[i..] == [];
    } else {
      var x := names[i];
      assert names[i..][0] == x && names[i..][1..] == names[i + 1..];
      NamesOfEntries(disk0, here);
      assert here + [x] in disk0;
      ListedIsPlain(disk0, here, at, x);
      assert Parent(at + [x]) == at && dest <= at + [x];
      GuardedRun(disk0, dest, disk, here + [x], at + [x], stack, depth);
      EntryStep(start, fs, entries, i, stack, at);
      var r := Run(disk, here + [x], at + [x], stack, depth);
      if r.value.0 {
        RunExtends(disk, here + [x], at + [x], stack, depth);
        ExtendsAgain(disk0, disk, r.value.1, dest, at + [x]);
        KindKept(disk, r.value.1, at + [x], at);
        KindKept(disk, r.value.1, at + [x], Parent(at));
        GuardedRunAll(disk0, dest, start, here, i + 1, r.value.1, at, stack, depth);
      } else {
        EntriesFail(start, fs, entries, i, stack, at);
      }
    }
  }

  lemma KindKept(a: Disk, b: Disk, at: Path, p: Path)
    requires Extends(a, b, at) && IsDirectory(a, p)
    ensures IsDirectory(b, p)
  {
  }

  /**
   * Copying to `dest`, whose parent is there: if nothing the copy reaches lies at or below `dest`, no directory it
   * reads is above `dest`, and no path that fails to resolve looks for something there, then it ends within as many
   * levels as there are files and directories. It succeeds exactly when the unfolding exists and fits the destination,
   * and then lays it out there over what was there.
   */
  lemma {:induction false} GuardedCopyIsUnfolding(disk: Disk, source: Path, dest: Path, depth: nat)
    requires WellFormed(disk) && PlainPath(dest) && dest != [] && IsDirectory(disk, Parent(dest))
    requires Steady(disk, source, dest) && Guarded(disk, TargetOf(disk, source), dest)
    requires depth >= |GraphOf(disk)|
    ensures AsUnfolded(Run(disk, source, dest, {}, depth), disk, Unfold(GraphOf(disk), TargetOf(disk, source), {}),
              dest)
  {
    hide Run, Unfold, Guarded, Steady, AsUnfolded, GraphOf;
    SameExtends(disk, dest);
    assert GraphOf(disk).Keys - {} == GraphOf(disk).Keys;
    GuardedRun(disk, dest, disk, source, dest, {}, depth);
  }

  // ---- Why paths that fail to resolve count ----

  /** A file and a link to where its copy will be. */
  const LINKED: Disk := map[[] := Directory, ["src"] := Directory, ["src", "a"] := Regular("x"),
                            ["src", "z"] := Symlink(true, ["dst", "a"])]

  const MADE: Disk := LINKED[["dst"] := Directory]

  const COPIED: Disk := MADE[["dst", "a"] := Regular("x")]

  lemma LinkedResolves()
    ensures RealPath(LINKED, ["src"]) == Some(["src"]) && RealPath(LINKED, ["src", "z"]) == None
    ensures RealPath(MADE, ["src", "a"]) == Some(["src", "a"]) && RealPath(COPIED, ["src", "z"]) == Some(["dst", "a"])
  {
    assert ["src"][1..] == [] && ["src", "a"][1..] == ["a"] && ["src", "z"][1..] == ["z"];
    assert ["a"][1..] == [] && ["z"][1..] == [] && ["dst", "a"] + [] == ["dst", "a"] && ["dst", "a"][1..] == ["a"];
    assert [] + ["src"] == ["src"] && ["src"] + ["a"] == ["src", "a"] && ["src"] + ["z"] == ["src", "z"];
    assert [] + ["dst"] == ["dst"] && ["dst"] + ["a"] == ["dst", "a"];
  }

  lemma LinkedNames()
    ensures Names(MADE, ["src"]) == ["a", "z"] && Names(LINKED, ["src"]) == ["a", "z"]
  {
    forall x ensures (["src"] + [x] in MADE <==> x in ["a", "z"]) && (["src"] + [x] in LINKED <==> x in ["a", "z"]) {
      assert (["src"] + [x])[1] == x;
      assert ["src"] + ["a"] == ["src", "a"] && ["src"] + ["z"] == ["src", "z"];
    }
    NamesAreUnique(MADE, ["src"], ["a", "z"]);
    NamesAreUnique(LINKED, ["src"], ["a", "z"]);
  }

  lemma {:induction false} LinkedHasDeadEnd()
    ensures Unfold(GraphOf(LINKED), TargetOf(LINKED, ["src"]), {}).None?
  {
    hide RealPath, Names, Unfold, GraphOf, EntersTo;
    LinkedResolves();
    LinkedNames();
    var fs, w := GraphOf(LINKED), [Resolves(["src"]), Dangling];
    assert ["src"] + ["z"] == ["src", "z"];
    EntryOfName(LINKED, ["src"], "z");
    assert Walk(fs, Resolves(["src"]), w) && DeadEnd(fs, {}, w);
    FailsExactly(fs, Resolves(["src"]));
  }

  lemma LinkedEntriesCopied(stack: set<Path>)
    requires stack == {["src"]}
    ensures Run(MADE, ["src", "a"], ["dst", "a"], stack, 0) == Some((true, COPIED))
    ensures Succeeded(Run(COPIED, ["src", "z"], ["dst", "z"], stack, 0))
  {
    hide RealPath;
    LinkedResolves();
    assert Parent(["dst", "a"]) == ["dst"] && Parent(["dst", "z"]) == ["dst"];
  }

  /** The source has a dead end, but by the time the copy gets there it leads to a file it has made, and it succeeds. */
  lemma {:induction false} DeadEndComesAlive()
    ensures Unfold(GraphOf(LINKED), TargetOf(LINKED, ["src"]), {}).None?
    ensures Succeeded(Run(LINKED, ["src"], ["dst"], {}, 1))
  {
    hide RealPath, Names, Unfold, GraphOf;
    LinkedHasDeadEnd();
    LinkedResolves();
    LinkedNames();
    LinkedLoop();
    assert Parent(["dst"]) == [];
    assert {} + {["src"]} == {["src"]};
  }

  lemma LinkedLoop()
    ensures Succeeded(RunAll(MADE, ["src"], ["a", "z"], ["dst"], {["src"]}, 0))
  {
    hide Run;
    LinkedEntriesCopied({["src"]});
    assert ["src"] + ["a"] == ["src", "a"] && ["src"] + ["z"] == ["src", "z"];
    assert ["dst"] + ["a"] == ["dst", "a"] && ["dst"] + ["z"] == ["dst", "z"];
    assert ["a", "z"][1..] == ["z"] && ["z"][1..] == [];
  }
}
