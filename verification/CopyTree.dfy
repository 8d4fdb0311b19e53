/**
 * What copying a tree with every symlink replaced by what it points at should make (copyTreeMaterialized in
 * cmd/devtools/instance.go): the unfolding of a graph of files and directories, laid out at the destination.
 */
module CopyTree {
  import opened FileSystem
  import opened Text

  /** What a path names once its symlinks are resolved; `Dangling` if they cannot be. */
  datatype Target = Resolves(id: Path) | Dangling

  datatype Entry = Entry(name: string, target: Target)

  datatype Node = Dir(entries: seq<Entry>) | File(content: string) | Special

  /** The real files and directories, by real path. Several entries may resolve to one of them, cycles included. */
  type Graph = map<Path, Node>

  predicate UniqueNames(entries: seq<Entry>) {
    forall i, j :: 0 <= i < j < |entries| ==> entries[i].name != entries[j].name
  }

  /** The full unfolding: shared directories appear at each use. */
  datatype Tree = Leaf(content: string) | Branch(children: seq<(string, Tree)>)

  /** Directories not yet on the stack: what each descent uses up. */
  function Unvisited(fs: Graph, stack: set<Path>): nat { |fs.Keys - stack| }

  lemma DescendsOnce(fs: Graph, stack: set<Path>, id: Path)
    requires id in fs && id !in stack
    ensures Unvisited(fs, stack + {id}) < Unvisited(fs, stack)
  {
    assert fs.Keys - (stack + {id}) == fs.Keys - stack - {id};
  }

  function Unfold(fs: Graph, t: Target, stack: set<Path>): Option<Tree>
    decreases Unvisited(fs, stack), 0
  {
    if t.Dangling? || t.id in stack || t.id !in fs then None
    else
      match fs[t.id]
      case Special => None
      case File(content) => Some(Leaf(content))
      case Dir(entries) =>
        DescendsOnce(fs, stack, t.id);
        var children := UnfoldAll(fs, entries, stack + {t.id});
        if children.None? then None else Some(Branch(children.value))
  }

  function UnfoldAll(fs: Graph, entries: seq<Entry>, stack: set<Path>): (r: Option<seq<(string, Tree)>>)
    ensures r.Some? ==> |r.value| == |entries| && forall i :: 0 <= i < |entries| ==> r.value[i].0 == entries[i].name
    decreases Unvisited(fs, stack), 1 + |entries|
  {
    if entries == [] then Some([])
    else
      var n := |entries| - 1;
      match UnfoldAll(fs, entries[..n], stack)
      case None => None
      case Some(before) =>
        match Unfold(fs, entries[n].target, stack)
        case None => None
        case Some(tree) => Some(before + [(entries[n].name, tree)])
  }

  // ---- Failure: exactly when a cycle, a missing target or an unsupported file is reachable ----

  /** A walk through directory entries, starting at `t`. */
  predicate Walk(fs: Graph, t: Target, w: seq<Target>) {
    && |w| > 0 && w[0] == t
    && forall i :: 0 <= i < |w| - 1 ==> EntersTo(fs, w[i], w[i + 1])
  }

  predicate EntersTo(fs: Graph, from: Target, to: Target) {
    from.Resolves? && from.id in fs && fs[from.id].Dir? && exists e :: e in fs[from.id].entries && e.target == to
  }

  /**
   * The walk ends where the copy cannot go on: nothing there, an unsupported file, or a directory already on the way.
   */
  predicate DeadEnd(fs: Graph, stack: set<Path>, w: seq<Target>) {
    |w| > 0 &&
    var last := w[|w| - 1];
    || last.Dangling? || last.id !in fs || fs[last.id].Special?
    || last.id in stack || exists i :: 0 <= i < |w| - 1 && w[i] == last
  }

  ghost predicate Blocked(fs: Graph, t: Target, stack: set<Path>) {
    exists w :: Walk(fs, t, w) && DeadEnd(fs, stack, w)
  }

  lemma {:induction false} BlockedBelow(fs: Graph, t: Target, stack: set<Path>, e: Entry)
    requires t.Resolves? && t.id in fs && fs[t.id].Dir? && e in fs[t.id].entries
    requires Blocked(fs, e.target, stack + {t.id})
    ensures Blocked(fs, t, stack)
  {
    var w :| Walk(fs, e.target, w) && DeadEnd(fs, stack + {t.id}, w);
    var longer := [t] + w;
    assert EntersTo(fs, t, e.target);
    assert Walk(fs, t, longer) by {
      forall i | 0 <= i < |longer| - 1 ensures EntersTo(fs, longer[i], longer[i + 1]) {
        if i > 0 {
          assert EntersTo(fs, w[i - 1], w[i]);
        }
      }
    }
    var last := w[|w| - 1];
    assert longer[|longer| - 1] == last;
    if last.Resolves? && last.id == t.id {
      assert longer[0] == last;
    } else if i :| 0 <= i < |w| - 1 && w[i] == last {
      assert longer[i + 1] == last;
    }
    assert DeadEnd(fs, stack, longer);
  }

  lemma {:induction false} FailureIsBlocked(fs: Graph, t: Target, stack: set<Path>)
    requires Unfold(fs, t, stack).None?
    ensures Blocked(fs, t, stack)
    decreases Unvisited(fs, stack), 0
  {
    if t.Dangling? || t.id in stack || t.id !in fs || fs[t.id].Special? {
      assert Walk(fs, t, [t]) && DeadEnd(fs, stack, [t]);
    } else {
      DescendsOnce(fs, stack, t.id);
      var entries := fs[t.id].entries;
      var i := FirstFailure(fs, entries, stack + {t.id});
      BlockedBelow(fs, t, stack, entries[i]);
    }
  }

  lemma {:induction false} FirstFailure(fs: Graph, entries: seq<Entry>, stack: set<Path>) returns (i: nat)
    requires UnfoldAll(fs, entries, stack).None?
    ensures i < |entries| && Blocked(fs, entries[i].target, stack)
    decreases Unvisited(fs, stack), 1 + |entries|
  {
    var n := |entries| - 1;
    if UnfoldAll(fs, entries[..n], stack).None? {
      i := FirstFailure(fs, entries[..n], stack);
    } else {
      i := n;
      FailureIsBlocked(fs, entries[n].target, stack);
    }
  }

  lemma {:induction false} BlockedIsFailure(fs: Graph, t: Target, stack: set<Path>, w: seq<Target>)
    requires Walk(fs, t, w) && DeadEnd(fs, stack, w)
    ensures Unfold(fs, t, stack).None?
    decreases |w|
  {
    if |w| > 1 && t.Resolves? && t.id !in stack {
      assert EntersTo(fs, w[0], w[1]);
      var e :| e in fs[t.id].entries && e.target == w[1];
      var rest := w[1..];
      assert Walk(fs, w[1], rest) by {
        forall i | 0 <= i < |rest| - 1 ensures EntersTo(fs, rest[i], rest[i + 1]) {
          assert EntersTo(fs, w[i + 1], w[i + 2]);
        }
      }
      ShorterDeadEnd(fs, stack, t, w);
      BlockedIsFailure(fs, w[1], stack + {t.id}, rest);
      OneFails(fs, fs[t.id].entries, stack + {t.id}, e);
    }
  }

  lemma {:induction false} ShorterDeadEnd(fs: Graph, stack: set<Path>, t: Target, w: seq<Target>)
    requires |w| > 1 && w[0] == t && t.Resolves? && DeadEnd(fs, stack, w)
    ensures DeadEnd(fs, stack + {t.id}, w[1..])
  {
  }

  lemma {:induction false} OneFails(fs: Graph, entries: seq<Entry>, stack: set<Path>, e: Entry)
    requires e in entries && Unfold(fs, e.target, stack).None?
    ensures UnfoldAll(fs, entries, stack).None?
    decreases |entries|
  {
    var n := |entries| - 1;
    if e != entries[n] {
      OneFails(fs, entries[..n], stack, e);
    }
  }

  /** The copy fails exactly when a directory cycle, a missing target or an unsupported file can be reached. */
  lemma {:induction false} FailsExactly(fs: Graph, t: Target)
    ensures Unfold(fs, t, {}).None? <==> Blocked(fs, t, {})
  {
    if Unfold(fs, t, {}).None? {
      FailureIsBlocked(fs, t, {});
    } else if Blocked(fs, t, {}) {
      var w :| Walk(fs, t, w) && DeadEnd(fs, {}, w);
      BlockedIsFailure(fs, t, {}, w);
    }
  }

  // ---- Success: every path of names leads to a copy of what it leads to in the source ----

  /** Where a path of names leads in the source. */
  function Follow(fs: Graph, t: Target, names: seq<string>): Option<Target>
    decreases |names|
  {
    if names == [] then Some(t)
    else if t.Dangling? || t.id !in fs || !fs[t.id].Dir? then None
    else
      match FindEntry(fs[t.id].entries, names[0])
      case None => None
      case Some(next) => Follow(fs, next, names[1..])
  }

  function FindEntry(entries: seq<Entry>, name: string): Option<Target> {
    if entries == [] then None
    else
      var n := |entries| - 1;
      if entries[n].name == name then Some(entries[n].target) else FindEntry(entries[..n], name)
  }

  function FindChild(children: seq<(string, Tree)>, name: string): (r: Option<Tree>)
    ensures r.Some? ==> (name, r.value) in children
  {
    if children == [] then None
    else
      var n := |children| - 1;
      if children[n].0 == name then Some(children[n].1) else FindChild(children[..n], name)
  }

  /** Where it leads in the copy. */
  function Descend(tree: Tree, names: seq<string>): Option<Tree>
    decreases |names|
  {
    if names == [] then Some(tree)
    else if tree.Leaf? then None
    else match FindChild(tree.children, names[0]) case None => None case Some(next) => Descend(next, names[1..])
  }

  /** The copy of a file is its content, the copy of a directory has its names. */
  predicate CopyOf(fs: Graph, tree: Tree, t: Target) {
    t.Resolves? && t.id in fs &&
    match fs[t.id]
    case Special => false
    case File(content) => tree == Leaf(content)
    case Dir(entries) =>
      tree.Branch? && |tree.children| == |entries| && forall i :: 0 <= i < |entries| ==>
          tree.children[i].0 == entries[i].name
  }

  lemma {:induction false} ChildOfEntry(fs: Graph, entries: seq<Entry>, stack: set<Path>, name: string)
    requires UnfoldAll(fs, entries, stack).Some?
    ensures var child, target := FindChild(UnfoldAll(fs, entries, stack).value, name), FindEntry(entries, name);
            && (child.Some? <==> target.Some?)
            && (child.Some? ==> Unfold(fs, target.value, stack) == Some(child.value))
    decreases |entries|
  {
    if entries != [] {
      var n := |entries| - 1;
      ChildOfEntry(fs, entries[..n], stack, name);
      var before := UnfoldAll(fs, entries[..n], stack).value;
      var all := UnfoldAll(fs, entries, stack).value;
      assert all[..|all| - 1] == before;
    }
  }

  /**
   * The copy is the full unfolding of the source: the same paths exist in both, and lead to a copy of the same thing.
   */
  lemma {:induction false} CopyIsUnfolding(fs: Graph, t: Target, stack: set<Path>, names: seq<string>)
    requires Unfold(fs, t, stack).Some?
    ensures var there, here := Follow(fs, t, names), Descend(Unfold(fs, t, stack).value, names);
            && (there.Some? <==> here.Some?)
            && (there.Some? ==> CopyOf(fs, here.value, there.value))
    decreases |names|
  {
    if names != [] && fs[t.id].Dir? {
      var entries := fs[t.id].entries;
      ChildOfEntry(fs, entries, stack + {t.id}, names[0]);
      var next := FindEntry(entries, names[0]);
      if next.Some? {
        CopyIsUnfolding(fs, next.value, stack + {t.id}, names[1..]);
      }
    }
  }

  // ---- The destination ----

  /** A tree laid out under `at`. */
  function Layout(tree: Tree, at: Path): Disk
    decreases tree, 0
  {
    match tree
    case Leaf(content) => map[at := Regular(content)]
    case Branch(children) => map[at := Directory] + LayoutAll(children, at)
  }

  function LayoutAll(children: seq<(string, Tree)>, at: Path): Disk
    decreases children, 1
  {
    if children == [] then map[]
    else
      var last := children[|children| - 1];
      assert last.1 < last;
      LayoutAll(children[..|children| - 1], at) + Layout(last.1, at + [last.0])
  }

  /** Where something is to be made there is nothing yet, or a directory for a directory and a file for a file. */
  predicate Fits(disk: Disk, made: Disk) {
    forall p :: p in made && p in disk ==> if made[p].Directory? then disk[p].Directory? else disk[p].Regular?
  }

  predicate Under(p: Path, at: Path) { at <= p }

  lemma {:induction false} LayoutIsUnder(tree: Tree, at: Path)
    ensures forall p :: p in Layout(tree, at) ==> Under(p, at)
    decreases tree, 0
  {
    match tree {
      case Leaf(content) =>
      case Branch(children) => LayoutAllIsUnder(children, at);
    }
  }

  lemma {:induction false} LayoutAllIsUnder(children: seq<(string, Tree)>, at: Path)
    ensures forall p :: p in LayoutAll(children, at) ==>
              |p| > |at| && Under(p, at) && exists i :: 0 <= i < |children| && children[i].0 == p[|at|]
    decreases children, 1
  {
    if children != [] {
      var n := |children| - 1;
      var (name, tree) := children[n];
      assert children[n].1 < children[n];
      LayoutAllIsUnder(children[..n], at);
      LayoutIsUnder(tree, at + [name]);
      forall p | p in LayoutAll(children, at)
        ensures |p| > |at| && Under(p, at) && exists i :: 0 <= i < |children| && children[i].0 == p[|at|]
      {
        if p in Layout(tree, at + [name]) {
          assert p[|at|] == (at + [name])[|at|] == name && children[n].0 == name;
          assert p[..|at|] == (at + [name])[..|at|] == at;
        } else {
          var i :| 0 <= i < n && children[..n][i].0 == p[|at|];
          assert children[i].0 == p[|at|];
        }
      }
    }
  }

  lemma StartEmpty(disk: Disk, fs: Graph, stack: set<Path>, at: Path)
    ensures UnfoldAll(fs, [], stack) == Some([]) && LayoutAll([], at) == map[]
    ensures Fits(disk, map[]) && disk + LayoutAll([], at) == disk
  {
  }

  /** A directory and its entries laid out together: a file in its place is the first thing that does not fit. */
  lemma {:induction false} LaidOut(disk: Disk, at: Path, children: seq<(string, Tree)>)
    ensures var all := Layout(Branch(children), at);
            && (Fits(disk, all) <==>
                 (at in disk ==> disk[at].Directory?) && Fits(disk[at := Directory], LayoutAll(children, at)))
            && disk[at := Directory] + LayoutAll(children, at) == disk + all
  {
    LayoutAllIsUnder(children, at);
    hide LayoutAll, Fits;
    HeadFits(disk, at, LayoutAll(children, at));
  }

  lemma HeadFits(disk: Disk, at: Path, rest: Disk)
    requires at !in rest
    ensures var all := map[at := Directory] + rest;
            && (Fits(disk, all) <==> (at in disk ==> disk[at].Directory?) && Fits(disk[at := Directory], rest))
            && disk[at := Directory] + rest == disk + all
  {
  }

  /** The entry copied next lands on paths the earlier ones did not touch. */
  lemma {:induction false} EntryStep(disk: Disk, fs: Graph, entries: seq<Entry>, i: nat, stack: set<Path>, at: Path)
    requires UniqueNames(entries) && i < |entries| && UnfoldAll(fs, entries[..i], stack).Some?
    requires Fits(disk, LayoutAll(UnfoldAll(fs, entries[..i], stack).value, at))
    ensures var done, next := UnfoldAll(fs, entries[..i], stack).value, Unfold(fs, entries[i].target, stack);
            if next.None? then UnfoldAll(fs, entries[..i + 1], stack).None?
            else
              var made, more := LayoutAll(done, at), Layout(next.value, at + [entries[i].name]);
              && UnfoldAll(fs, entries[..i + 1], stack) == Some(done + [(entries[i].name, next.value)])
              && LayoutAll(done + [(entries[i].name, next.value)], at) == made + more
              && (Fits(disk + made, more) <==> Fits(disk, made + more))
              && disk + made + more == disk + (made + more)
  {
    hide Fits, Unfold;
    var done, next := UnfoldAll(fs, entries[..i], stack).value, Unfold(fs, entries[i].target, stack);
    assert entries[..i + 1][..i] == entries[..i];
    if next.Some? {
      LayoutStep(disk, entries[..i + 1], done, next.value, at);
    }
  }

  lemma {:induction false} LayoutStep(disk: Disk, entries: seq<Entry>, done: seq<(string, Tree)>, next: Tree, at: Path)
    requires UniqueNames(entries) && |entries| == |done| + 1 && Fits(disk, LayoutAll(done, at))
    requires forall i :: 0 <= i < |done| ==> done[i].0 == entries[i].name
    ensures var name := entries[|done|].name;
            var made, more := LayoutAll(done, at), Layout(next, at + [name]);
            && LayoutAll(done + [(name, next)], at) == made + more
            && (Fits(disk + made, more) <==> Fits(disk, made + more))
            && disk + made + more == disk + (made + more)
  {
    hide Fits, Layout;
    var name := entries[|done|].name;
    assert (done + [(name, next)])[..|done|] == done;
    LayoutAllIsUnder(done, at);
    LayoutIsUnder(next, at + [name]);
    ApartByName(entries, done, at, LayoutAll(done, at), Layout(next, at + [name]));
    FitsApart(disk, LayoutAll(done, at), Layout(next, at + [name]));
  }

  /** Entries of different names are laid out on different paths. */
  lemma {:induction false} ApartByName(entries: seq<Entry>, done: seq<(string, Tree)>, at: Path, made: Disk, more: Disk)
    requires UniqueNames(entries) && |entries| == |done| + 1
    requires forall i :: 0 <= i < |done| ==> done[i].0 == entries[i].name
    requires forall p :: p in made ==> |p| > |at| && exists i :: 0 <= i < |done| && done[i].0 == p[|at|]
    requires forall p :: p in more ==> Under(p, at + [entries[|done|].name])
    ensures forall p :: p in made ==> p !in more
  {
  }

  lemma FitsApart(disk: Disk, made: Disk, more: Disk)
    requires Fits(disk, made) && forall p :: p in made ==> p !in more
    ensures Fits(disk + made, more) <==> Fits(disk, made + more)
    ensures disk + made + more == disk + (made + more)
  {
  }

  /** Once one entry fails, or does not fit, so does the directory. */
  lemma {:induction false} EntriesFail(disk: Disk, fs: Graph, entries: seq<Entry>, i: nat, stack: set<Path>, at: Path)
    requires i < |entries|
    requires UnfoldAll(fs, entries[..i + 1], stack).Some? ==>
               !Fits(disk, LayoutAll(UnfoldAll(fs, entries[..i + 1], stack).value, at))
    requires UniqueNames(entries)
    ensures UnfoldAll(fs, entries, stack).Some? ==> !Fits(disk, LayoutAll(UnfoldAll(fs, entries, stack).value, at))
    decreases |entries|
  {
    var n := |entries| - 1;
    if i == n {
      assert entries[..i + 1] == entries;
    } else if UnfoldAll(fs, entries, stack).Some? {
      assert entries[..n][..i + 1] == entries[..i + 1];
      EntriesFail(disk, fs, entries[..n], i, stack, at);
      var before := UnfoldAll(fs, entries[..n], stack).value;
      if Fits(disk, LayoutAll(UnfoldAll(fs, entries, stack).value, at)) {
        PrefixFits(disk, fs, entries, stack, at);
      }
    }
  }

  lemma {:induction false} PrefixFits(disk: Disk, fs: Graph, entries: seq<Entry>, stack: set<Path>, at: Path)
    requires |entries| > 0 && UniqueNames(entries) && UnfoldAll(fs, entries, stack).Some?
    requires Fits(disk, LayoutAll(UnfoldAll(fs, entries, stack).value, at))
    ensures Fits(disk, LayoutAll(UnfoldAll(fs, entries[..|entries| - 1], stack).value, at))
  {
    var n := |entries| - 1;
    var before := UnfoldAll(fs, entries[..n], stack).value;
    var all := UnfoldAll(fs, entries, stack).value;
    var (name, tree) := all[n];
    assert all[..n] == before;
    var made, more := LayoutAll(before, at), Layout(tree, at + [name]);
    LayoutAllIsUnder(before, at);
    LayoutIsUnder(tree, at + [name]);
    ApartByName(entries, before, at, made, more);
    forall p | p in made && p in disk ensures if made[p].Directory? then disk[p].Directory? else disk[p].Regular? {
      assert p in made + more && (made + more)[p] == made[p];
    }
  }
}
