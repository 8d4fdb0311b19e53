/**
 * What a reader finds in a finished copy: under the destination, everything the source leads to, and nothing else new.
 */
module CopyMeaning {
  import opened CopyGuarded
  import opened CopyRun
  import opened CopyTree
  import opened FileSystem
  import opened Text

  // ---- Symlinks ----

  /** A relative link goes on from where it lies, an absolute one from the root, and each uses up one of the links. */
  lemma LinksLead(disk: Disk, here: Path, name: string, rest: Path, links: nat)
    requires IsDirectory(disk, here) && !Dots(name) && here + [name] in disk && disk[here + [name]].Symlink?
    ensures var link := disk[here + [name]];
            Resolve(disk, here, [name] + rest, links) ==
              if links == 0 then None
              else Resolve(disk, if link.absolute then [] else here, link.to + rest, links - 1)
  {
    assert ([name] + rest)[1..] == rest;
  }

  /** One dot stays, two go up, and the root is above itself. */
  lemma DotsLead(disk: Disk, here: Path, rest: Path, links: nat)
    requires IsDirectory(disk, here)
    ensures Resolve(disk, here, ["."] + rest, links) == Resolve(disk, here, rest, links)
    ensures Resolve(disk, here, [".."] + rest, links) ==
              Resolve(disk, if here == [] then [] else Parent(here), rest, links)
  {
    assert (["."] + rest)[1..] == rest && ([".."] + rest)[1..] == rest;
    assert (["."] + rest)[0] == "." && ([".."] + rest)[0] == "..";
  }

  // ---- Reading by name, links followed ----

  /** The real file or directory that names lead to, one after the other, from a real directory. */
  function Reach(disk: Disk, here: Path, names: seq<string>): Option<Path>
    decreases |names|
  {
    if names == [] then Some(here)
    else if !IsDirectory(disk, here) || here + [names[0]] !in disk then None
    else match RealPath(disk, here + [names[0]]) case None => None case Some(q) => Reach(disk, q, names[1..])
  }

  lemma {:induction false} FindInEntries(disk: Disk, here: Path, n: nat, name: string)
    requires n <= |Names(disk, here)|
    ensures FindEntry(Entries(disk, here)[..n], name) ==
              if name in Names(disk, here)[..n] then Some(TargetOf(disk, here + [name])) else None
  {
    hide TargetOf;
    var names, entries := Names(disk, here), Entries(disk, here);
    if n > 0 {
      FindInEntries(disk, here, n - 1, name);
      assert entries[..n][..n - 1] == entries[..n - 1] && names[..n] == names[..n - 1] + [names[n - 1]];
    }
  }

  lemma {:induction false} FollowIsReach(disk: Disk, here: Path, names: seq<string>, r: Path)
    requires WellFormed(disk) && IsReal(disk, here)
    ensures Follow(GraphOf(disk), Resolves(here), names) == Some(Resolves(r)) <==> Reach(disk, here, names) == Some(r)
    decreases |names|
  {
    hide WellFormed, RealPath, Resolve, Entries, Names, FindEntry;
    if names != [] && IsDirectory(disk, here) {
      var all := Names(disk, here);
      FindInEntries(disk, here, |all|, names[0]);
      assert all[..|all|] == all && Entries(disk, here)[..|all|] == Entries(disk, here);
      if here + [names[0]] in disk {
        var t := TargetOf(disk, here + [names[0]]);
        if t.Resolves? {
          RootIsReal(disk);
          RealPathIsReal(disk, here + [names[0]]);
          FollowIsReach(disk, t.id, names[1..], r);
        } else {
          FollowNowhere(GraphOf(disk), names[1..]);
        }
      }
    }
  }

  lemma FollowNowhere(fs: Graph, names: seq<string>)
    ensures Follow(fs, Dangling, names) == if names == [] then Some(Dangling) else None
  {
  }

  lemma RealPathIsReal(disk: Disk, p: Path)
    requires WellFormed(disk) && IsReal(disk, []) && RealPath(disk, p).Some?
    ensures IsReal(disk, RealPath(disk, p).value)
  {
    ResolvedIsReal(disk, [], p, MAX_LINKS);
  }

  // ---- A tree laid out ----

  ghost predicate UniqueTree(tree: Tree) {
    tree.Branch? ==>
      && (forall i, j :: 0 <= i < j < |tree.children| ==> tree.children[i].0 != tree.children[j].0)
      && forall i :: 0 <= i < |tree.children| ==> UniqueTree(tree.children[i].1)
  }

  ghost predicate UniqueGraph(fs: Graph) { forall p :: p in fs && fs[p].Dir? ==> UniqueNames(fs[p].entries) }

  lemma {:induction false} UnfoldIsUnique(fs: Graph, t: Target, stack: set<Path>)
    requires UniqueGraph(fs) && Unfold(fs, t, stack).Some?
    ensures UniqueTree(Unfold(fs, t, stack).value)
    decreases Unvisited(fs, stack), 0
  {
    if fs[t.id].Dir? {
      DescendsOnce(fs, stack, t.id);
      UnfoldAllIsUnique(fs, fs[t.id].entries, stack + {t.id});
    }
  }

  lemma {:induction false} UnfoldAllIsUnique(fs: Graph, entries: seq<Entry>, stack: set<Path>)
    requires UniqueGraph(fs) && UnfoldAll(fs, entries, stack).Some?
    ensures var all := UnfoldAll(fs, entries, stack).value;
            forall i :: 0 <= i < |all| ==> UniqueTree(all[i].1)
    decreases Unvisited(fs, stack), 1 + |entries|
  {
    hide UniqueTree;
    if entries != [] {
      var n := |entries| - 1;
      UnfoldAllIsUnique(fs, entries[..n], stack);
      UnfoldIsUnique(fs, entries[n].target, stack);
    }
  }

  function Made(tree: Tree): Inode { match tree case Leaf(content) => Regular(content) case Branch(_) => Directory }

  /** A tree's layout holds, under each path of names, what the names lead to in the tree. */
  lemma {:induction false} LayoutHolds(tree: Tree, at: Path, names: seq<string>)
    requires UniqueTree(tree)
    ensures at + names in Layout(tree, at) <==> Descend(tree, names).Some?
    ensures Descend(tree, names).Some? ==> Layout(tree, at)[at + names] == Made(Descend(tree, names).value)
    decreases tree, 0
  {
    if names == [] {
      assert at + names == at;
      if tree.Branch? {
        LayoutAllIsUnder(tree.children, at);
      }
    } else {
      assert |at + names| > |at|;
      if tree.Branch? {
        LayoutAllHolds(tree.children, at, names);
      }
    }
  }

  lemma {:induction false} LayoutAllHolds(children: seq<(string, Tree)>, at: Path, names: seq<string>)
    requires names != [] && forall i :: 0 <= i < |children| ==> UniqueTree(children[i].1)
    requires forall i, j :: 0 <= i < j < |children| ==> children[i].0 != children[j].0
    ensures var child := FindChild(children, names[0]);
            var there := if child.None? then None else Descend(child.value, names[1..]);
            && (at + names in LayoutAll(children, at) <==> there.Some?)
            && (there.Some? ==> LayoutAll(children, at)[at + names] == Made(there.value))
    decreases children, 1
  {
    hide Layout, UniqueTree, Descend;
    if children != [] {
      var n := |children| - 1;
      var (name, tree) := children[n];
      assert children[n].1 < children[n];
      var before, p := children[..n], at + names;
      LayoutAllIsUnder(before, at);
      LayoutIsUnder(tree, at + [name]);
      assert p[|at|] == names[0];
      if name == names[0] {
        assert at + [name] + names[1..] == p;
        LayoutHolds(tree, at + [name], names[1..]);
        assert forall i :: 0 <= i < n ==> before[i].0 != name;
      } else {
        LayoutAllHolds(before, at, names);
        assert !(at + [name] <= p) by { assert (at + [name])[|at|] == name; }
      }
    }
  }

  // ---- The finished copy ----

  lemma GraphIsUnique(disk: Disk)
    ensures UniqueGraph(GraphOf(disk))
  {
    hide Entries;
    forall p | p in GraphOf(disk) && GraphOf(disk)[p].Dir? ensures UniqueNames(GraphOf(disk)[p].entries) {
      NamesOfEntries(disk, p);
    }
  }

  /** What reading `names` under the destination gives once the copy is done. */
  predicate CopyReads(before: Disk, after: Disk, start: Path, dest: Path, names: seq<string>) {
    var found := Reach(before, start, names);
    if found.None? then
      (dest + names in after <==> dest + names in before)
      && (dest + names in after ==> after[dest + names] == before[dest + names])
    else dest + names in after && found.value in before && after[dest + names] == before[found.value]
  }

  /**
   * A guarded copy that succeeds reads like its source: every path of names that leads to a file or directory there,
   * links followed, leads to the same content or to a directory under the destination; every other path is as it was.
   */
  lemma {:induction false} CopyReadsLikeSource(disk: Disk, source: Path, dest: Path, depth: nat, names: seq<string>)
    requires WellFormed(disk) && PlainPath(dest) && dest != [] && IsDirectory(disk, Parent(dest))
    requires Steady(disk, source, dest) && Guarded(disk, TargetOf(disk, source), dest)
    requires depth >= |GraphOf(disk)| && Succeeded(Run(disk, source, dest, {}, depth))
    ensures RealPath(disk, source).Some?
    ensures var after := Run(disk, source, dest, {}, depth).value.1;
            && CopyReads(disk, after, RealPath(disk, source).value, dest, names)
            && forall p :: !(dest <= p) ==> (p in after <==> p in disk) && (p in after ==> after[p] == disk[p])
  {
    hide Run, Guarded, Steady, Layout, GraphOf, Reach, WellFormed, Follow, Descend, UniqueTree, RealPath;
    GuardedCopyIsUnfolding(disk, source, dest, depth);
    var fs, t := GraphOf(disk), TargetOf(disk, source);
    var tree := Unfold(fs, t, {}).value;
    GraphIsUnique(disk);
    UnfoldIsUnique(fs, t, {});
    LayoutHolds(tree, dest, names);
    LayoutIsUnder(tree, dest);
    CopyIsUnfolding(fs, t, {}, names);
    StartIsReal(disk, source);
    var there := Follow(fs, t, names);
    forall r ensures there == Some(Resolves(r)) <==> Reach(disk, t.id, names) == Some(r) {
      FollowIsReach(disk, t.id, names, r);
    }
    if there.Some? {
      MadeOfNode(disk, there.value, Descend(tree, names).value);
    }
  }

  /** A file copied onto itself is emptied: the destination is opened for writing before the source is read. */
  lemma {:induction false} SelfCopyEmpties(disk: Disk, p: Path, depth: nat)
    requires WellFormed(disk) && p in disk && disk[p].Regular?
    ensures Run(disk, p, p, {}, depth) == Some((true, disk[p := Regular("")]))
  {
    hide WellFormed, RealPath;
    RealIsItself(disk, p);
  }

  lemma StartIsReal(disk: Disk, source: Path)
    requires WellFormed(disk) && Unfold(GraphOf(disk), TargetOf(disk, source), {}).Some?
    ensures RealPath(disk, source).Some? && IsReal(disk, RealPath(disk, source).value)
  {
  }

  lemma MadeOfNode(disk: Disk, t: Target, tree: Tree)
    requires CopyOf(GraphOf(disk), tree, t)
    ensures t.id in disk && Made(tree) == disk[t.id]
  {
    hide Entries;
  }
}
