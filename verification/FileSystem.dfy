/** One file system: paths, symlinks and their resolution, directory listings, and what a copy may change. */
module FileSystem {
  import opened Collections
  import opened Sorting
  import opened Text

  /** The components of a path from the root. */
  type Path = seq<string>

  datatype Inode = Directory | Regular(content: string) | Symlink(absolute: bool, to: Path) | Other

  type Disk = map<Path, Inode>

  function Parent(p: Path): Path
    requires p != []
  {
    p[..|p| - 1]
  }

  predicate Dots(c: string) { c == "." || c == ".." }

  predicate PlainPath(p: Path) { forall i :: 0 <= i < |p| ==> !Dots(p[i]) }

  predicate IsDirectory(disk: Disk, p: Path) { p in disk && disk[p].Directory? }

  /** Everything but the root lies in a directory, under a here name. */
  predicate WellFormed(disk: Disk) {
    && IsDirectory(disk, [])
    && forall p :: p in disk ==> PlainPath(p) && (p != [] ==> IsDirectory(disk, Parent(p)))
  }

  lemma {:induction false} AboveIsDirectory(disk: Disk, p: Path, q: Path)
    requires WellFormed(disk) && p in disk && q <= p && q != p
    ensures IsDirectory(disk, q)
    decreases |p|
  {
    if Parent(p) != q {
      AboveIsDirectory(disk, Parent(p), q);
    }
  }

  // ---- filepath.EvalSymlinks ----

  /** The number of symlinks EvalSymlinks follows before it gives up. */
  const MAX_LINKS := 255

  /** One step of the walk that stands at the real path `here` and has `rest` to go. */
  function Step(disk: Disk, here: Path, rest: Path, links: nat): (next: Option<(Path, Path, nat)>)
    requires rest != []
    ensures next.Some? ==> next.value.2 < links || (next.value.2 == links && |next.value.1| < |rest|)
  {
    if !IsDirectory(disk, here) then None
    else if rest[0] == "." then Some((here, rest[1..], links))
    else if rest[0] == ".." then Some((if here == [] then [] else Parent(here), rest[1..], links))
    else
      var next := here + [rest[0]];
      if next !in disk then None
      else if !disk[next].Symlink? then Some((next, rest[1..], links))
      else if links == 0 then None
      else Some((if disk[next].absolute then [] else here, disk[next].to + rest[1..], links - 1))
  }

  function Resolve(disk: Disk, here: Path, rest: Path, links: nat): Option<Path>
    decreases links, |rest|
  {
    if rest == [] then Some(here)
    else match Step(disk, here, rest, links) case None => None case Some((h, r, l)) => Resolve(disk, h, r, l)
  }

  predicate LooksNow(disk: Disk, here: Path, rest: Path, at: Path) {
    rest != [] && IsDirectory(disk, here) && !Dots(rest[0]) && at <= here + [rest[0]]
  }

  /** The walk looks for something at or below `at`. */
  predicate Looks(disk: Disk, here: Path, rest: Path, links: nat, at: Path)
    decreases links, |rest|
  {
    if rest == [] then false
    else if LooksNow(disk, here, rest, at) then true
    else match Step(disk, here, rest, links) case None => false case Some((h, r, l)) => Looks(disk, h, r, l, at)
  }

  function RealPath(disk: Disk, p: Path): Option<Path> { Resolve(disk, [], p, MAX_LINKS) }

  predicate IsReal(disk: Disk, p: Path) { p in disk && !disk[p].Symlink? }

  lemma {:induction false} ResolvedIsReal(disk: Disk, here: Path, rest: Path, links: nat)
    requires WellFormed(disk) && IsReal(disk, here)
    ensures Resolve(disk, here, rest, links).Some? ==> IsReal(disk, Resolve(disk, here, rest, links).value)
    decreases links, |rest|
  {
    if rest != [] {
      match Step(disk, here, rest, links) {
        case None =>
        case Some((h, r, l)) => ResolvedIsReal(disk, h, r, l);
      }
    }
  }

  lemma OneDown(disk: Disk, here: Path, name: string, rest: Path, links: nat)
    requires WellFormed(disk) && IsDirectory(disk, here) && IsReal(disk, here + [name])
    ensures Resolve(disk, here, [name] + rest, links) == Resolve(disk, here + [name], rest, links)
  {
    assert (here + [name])[|here|] == name && !Dots(name);
    assert ([name] + rest)[1..] == rest;
  }

  /** Directories are walked down as they are named. */
  lemma {:induction false} ResolveDown(disk: Disk, here: Path, mid: Path, rest: Path, links: nat)
    requires WellFormed(disk) && IsDirectory(disk, here + mid)
    ensures Resolve(disk, here, mid + rest, links) == Resolve(disk, here + mid, rest, links)
    decreases |mid|
  {
    hide Resolve, WellFormed;
    if mid == [] {
      assert mid + rest == rest && here + mid == here;
    } else {
      var next := here + [mid[0]];
      assert next + mid[1..] == here + mid;
      AboveIsDirectory(disk, here + mid, here);
      if next != here + mid {
        AboveIsDirectory(disk, here + mid, next);
      }
      OneDown(disk, here, mid[0], mid[1..] + rest, links);
      assert mid + rest == [mid[0]] + (mid[1..] + rest);
      ResolveDown(disk, next, mid[1..], rest, links);
    }
  }

  lemma {:induction false} RealIsItself(disk: Disk, p: Path)
    requires WellFormed(disk) && IsReal(disk, p)
    ensures RealPath(disk, p) == Some(p)
  {
    if p != [] {
      var up, name := Parent(p), p[|p| - 1];
      assert [] + up == up && up + [name] == p && !Dots(name);
      ResolveDown(disk, [], up, [name], MAX_LINKS);
      assert [name][1..] == [];
    }
  }

  // ---- What a copy may change ----

  predicate SameKind(x: Inode, y: Inode) { x == y || (x.Regular? && y.Regular?) }

  /** From `a` to `b` only files and directories were added, and only at or below `at`; files there may be rewritten. */
  predicate Extends(a: Disk, b: Disk, at: Path) {
    && (forall p :: p in a ==> p in b && SameKind(a[p], b[p]) && (!(at <= p) ==> b[p] == a[p]))
    && (forall p :: p in b && p !in a ==> at <= p && (b[p].Directory? || b[p].Regular?))
  }

  lemma ExtendsAgain(a: Disk, b: Disk, c: Disk, at: Path, lower: Path)
    requires Extends(a, b, at) && Extends(b, c, lower) && at <= lower
    ensures Extends(a, c, at)
  {
    forall p | p in c && lower <= p ensures at <= p {
    }
  }

  lemma StepKeeps(a: Disk, b: Disk, at: Path, here: Path, rest: Path, links: nat)
    requires Extends(a, b, at) && rest != [] && Step(a, here, rest, links).Some?
    ensures Step(b, here, rest, links) == Step(a, here, rest, links)
  {
  }

  /** What resolved before resolves to the same place. */
  lemma {:induction false} ResolveKeeps(a: Disk, b: Disk, at: Path, here: Path, rest: Path, links: nat)
    requires Extends(a, b, at) && Resolve(a, here, rest, links).Some?
    ensures Resolve(b, here, rest, links) == Resolve(a, here, rest, links)
    decreases links, |rest|
  {
    hide Step, Extends;
    if rest != [] {
      StepKeeps(a, b, at, here, rest, links);
      var (h, r, l) := Step(a, here, rest, links).value;
      ResolveKeeps(a, b, at, h, r, l);
    }
  }

  lemma StepIgnores(a: Disk, b: Disk, at: Path, here: Path, rest: Path, links: nat)
    requires WellFormed(a) && Extends(a, b, at) && here in a && rest != [] && !LooksNow(a, here, rest, at)
    ensures Step(b, here, rest, links) == Step(a, here, rest, links)
    ensures Step(a, here, rest, links).Some? ==> Step(a, here, rest, links).value.0 in a
  {
  }

  /** A walk that never looks below `at` goes the same way, to its end or to the same failure. */
  lemma {:induction false} ResolveIgnores(a: Disk, b: Disk, at: Path, here: Path, rest: Path, links: nat)
    requires WellFormed(a) && Extends(a, b, at) && here in a && !Looks(a, here, rest, links, at)
    ensures Resolve(b, here, rest, links) == Resolve(a, here, rest, links)
    decreases links, |rest|
  {
    hide Step, Extends, WellFormed, LooksNow;
    if rest != [] {
      StepIgnores(a, b, at, here, rest, links);
      match Step(a, here, rest, links) {
        case None =>
        case Some((h, r, l)) => ResolveIgnores(a, b, at, h, r, l);
      }
    }
  }

  // ---- os.ReadDir ----

  function NameSet(disk: Disk, p: Path): set<string> { set q | q in disk && |q| == |p| + 1 && p <= q :: q[|p|] }

  lemma NamesInSet(disk: Disk, p: Path)
    ensures forall x :: x in NameSet(disk, p) <==> p + [x] in disk
  {
    forall x ensures x in NameSet(disk, p) <==> p + [x] in disk {
      if p + [x] in disk {
        assert (p + [x])[|p|] == x && p <= p + [x];
      }
      if x in NameSet(disk, p) {
        var q :| q in disk && |q| == |p| + 1 && p <= q && q[|p|] == x;
        assert q == p + [x];
      }
    }
  }

  ghost function SeqOf(s: set<string>): (r: seq<string>)
    ensures Distinct(r) && forall x :: x in r <==> x in s
  {
    if s == {} then [] else var x :| x in s; [x] + SeqOf(s - {x})
  }

  /** The sorted names in a directory. */
  ghost function Names(disk: Disk, p: Path): (r: seq<string>)
    ensures Ascending(r) && Distinct(r) && forall x :: x in r <==> p + [x] in disk
  {
    var s := SeqOf(NameSet(disk, p));
    NamesInSet(disk, p);
    SameMembers(s, Sort(s));
    PermutationIsDistinct(s, Sort(s));
    Sort(s)
  }

  lemma NamesAreUnique(disk: Disk, p: Path, names: seq<string>)
    requires Ascending(names) && Distinct(names) && forall x :: x in names <==> p + [x] in disk
    ensures names == Names(disk, p)
  {
    DistinctAlike(names, Names(disk, p));
    AscendingIsUnique(names, Names(disk, p));
  }

  /** Directories with the same names list alike. */
  lemma SameNames(a: Disk, b: Disk, p: Path)
    requires forall x :: p + [x] in a <==> p + [x] in b
    ensures Names(a, p) == Names(b, p)
  {
    NamesAreUnique(b, p, Names(a, p));
  }

  /** `os.ReadDir`. */
  method ReadDir(disk: Disk, p: Path) returns (names: seq<string>)
    ensures names == Names(disk, p)
  {
    names := [];
    var left := NameSet(disk, p);
    NamesInSet(disk, p);
    while left != {}
      invariant left <= NameSet(disk, p) && Distinct(names)
      invariant forall x :: x in names <==> x in NameSet(disk, p) && x !in left
      decreases left
    {
      var x :| x in left;
      names := names + [x];
      left := left - {x};
    }
    ghost var unsorted := names;
    names := Sort(names);
    SameMembers(unsorted, names);
    PermutationIsDistinct(unsorted, names);
    NamesAreUnique(disk, p, names);
  }
}
