/** The processes below a root (descendants in cmd/devtools/devsession.go). */
module Descendants {
  import opened Collections

  datatype Proc = Proc(pid: int, ppid: int, command: string)

  type Table = seq<Proc>

  predicate UniquePids(table: Table) { forall i, j :: 0 <= i < j < |table| ==> table[i].pid != table[j].pid }

  /** A line of descent from `root`: each process the child of the one before. */
  predicate Chain(table: Table, root: int, c: seq<Proc>) {
    && |c| > 0 && c[0].ppid == root
    && (forall i :: 0 <= i < |c| ==> c[i] in table)
    && (forall i :: 0 <= i < |c| - 1 ==> c[i + 1].ppid == c[i].pid)
  }

  function Last(c: seq<Proc>): Proc
    requires |c| > 0
  {
    c[|c| - 1]
  }

  /** `root` is a proper ancestor of `p`. */
  ghost predicate Descends(table: Table, root: int, p: Proc) {
    exists c :: Chain(table, root, c) && Last(c) == p
  }

  /** `root` is its own proper ancestor: the only parent cycle that can be reached from it. */
  ghost predicate InCycle(table: Table, root: int) {
    exists c :: Chain(table, root, c) && Last(c).pid == root
  }

  function ChildrenOf(table: Table, pid: int): (r: seq<Proc>)
    ensures forall p :: p in r <==> p in table && p.ppid == pid
  {
    if table == [] then []
    else
      var before, last := ChildrenOf(table[..|table| - 1], pid), table[|table| - 1];
      if last.ppid == pid then before + [last] else before
  }

  lemma {:induction false} ChildrenAreUnique(table: Table, pid: int)
    requires UniquePids(table)
    ensures UniquePids(ChildrenOf(table, pid))
  {
    if table != [] {
      var n := |table| - 1;
      ChildrenAreUnique(table[..n], pid);
      var before := ChildrenOf(table[..n], pid);
      forall i | 0 <= i < |before| ensures before[i].pid != table[n].pid {
        assert before[i] in table[..n];
      }
    }
  }

  function Pids(ps: seq<Proc>): (r: seq<int>)
    ensures |r| == |ps| && forall i :: 0 <= i < |r| ==> r[i] == ps[i].pid
  {
    seq(|ps|, i requires 0 <= i < |ps| => ps[i].pid)
  }

  lemma Extend(table: Table, root: int, p: Proc, q: Proc)
    requires (p.pid == root && q.ppid == root) || (Descends(table, root, p) && q.ppid == p.pid)
    requires q in table
    ensures Descends(table, root, q)
  {
    if q.ppid == root {
      assert Chain(table, root, [q]) && Last([q]) == q;
    } else {
      var c :| Chain(table, root, c) && Last(c) == p;
      assert Chain(table, root, c + [q]) && Last(c + [q]) == q;
    }
  }

  /** Distinct rows of a table are no more than the table has. */
  lemma {:induction false} DistinctRowsFit(found: seq<Proc>, table: Table)
    requires UniquePids(found) && forall p :: p in found ==> p in table
    ensures |found| <= |table|
  {
    var rows, all := set p | p in found, set p | p in table;
    MembersSize(found);
    MembersSize(table);
    assert rows <= all;
    SubsetSize(rows, all);
  }

  /** What the queue loop keeps; `popped` are the pids it has taken off the queue. */
  ghost predicate Progress(table: Table, root: int, popped: seq<int>, queue: seq<int>, found: seq<Proc>) {
    && popped + queue == [root] + Pids(found)
    && UniquePids(found)
    && (forall p :: p in found ==> p in table && p.pid != root && Descends(table, root, p) && p.ppid in popped)
    && (forall p :: p in table && p.ppid in popped ==> p in found)
  }

  lemma {:induction false} ProgressIsDistinct(
    table: Table, root: int, popped: seq<int>, queue: seq<int>, found: seq<Proc>
  )
    requires Progress(table, root, popped, queue, found) && queue != []
    ensures queue[0] !in popped
    ensures queue[0] == root || exists p :: p in found && p.pid == queue[0]
  {
    var all := [root] + Pids(found);
    var n := |popped|;
    assert all[n] == (popped + queue)[n] == queue[0];
    forall i | 0 <= i < n ensures popped[i] != queue[0] {
      assert popped[i] == (popped + queue)[i] == all[i];
      assert i > 0 ==> all[i] == found[i - 1].pid;
      assert n > 0 ==> all[n] == found[n - 1].pid;
      assert found[n - 1] in found;
    }
    assert n > 0 ==> all[n] == found[n - 1].pid && found[n - 1] in found;
  }

  lemma DescendantIsNotRoot(table: Table, root: int, p: Proc)
    requires !InCycle(table, root) && Descends(table, root, p)
    ensures p.pid != root
  {
  }

  /** The children about to be appended are new, and none of them is the root. */
  lemma {:induction false} ChildIsNew(
    table: Table, root: int, popped: seq<int>, queue: seq<int>, found: seq<Proc>, p: Proc
  )
    requires !InCycle(table, root) && Progress(table, root, popped, queue, found) && queue != []
    requires p in table && p.ppid == queue[0]
    ensures p.pid != root && Descends(table, root, p) && p !in found
  {
    hide InCycle, Descends, Chain;
    ProgressIsDistinct(table, root, popped, queue, found);
    if queue[0] == root {
      Extend(table, root, Proc(root, 0, ""), p);
    } else {
      var parent :| parent in found && parent.pid == queue[0];
      Extend(table, root, parent, p);
    }
    DescendantIsNotRoot(table, root, p);
  }

  lemma {:induction false} AppendIsUnique(table: Table, found: seq<Proc>, children: seq<Proc>)
    requires UniquePids(table) && UniquePids(found) && UniquePids(children)
    requires (forall p :: p in found ==> p in table) && forall p :: p in children ==> p in table && p !in found
    ensures UniquePids(found + children)
  {
    var next := found + children;
    forall i, j | 0 <= i < j < |next| ensures next[i].pid != next[j].pid {
      if i < |found| && j >= |found| {
        assert next[i] in found && next[j] in children;
        DifferentRows(table, next[i], next[j]);
      }
    }
  }

  lemma {:induction false} ProgressStep(table: Table, root: int, popped: seq<int>, queue: seq<int>, found: seq<Proc>)
    requires UniquePids(table) && !InCycle(table, root)
    requires Progress(table, root, popped, queue, found) && queue != []
    ensures var children := ChildrenOf(table, queue[0]);
            Progress(table, root, popped + [queue[0]], queue[1..] + Pids(children), found + children)
  {
    hide InCycle, Descends, ChildrenOf, UniquePids;
    var pid, children := queue[0], ChildrenOf(table, queue[0]);
    ChildrenAreUnique(table, pid);
    forall p | p in children ensures p.pid != root && Descends(table, root, p) && p !in found {
      ChildIsNew(table, root, popped, queue, found, p);
    }
    AppendIsUnique(table, found, children);
    SameOrder(root, popped, queue, found, children);
  }

  lemma SameOrder(root: int, popped: seq<int>, queue: seq<int>, found: seq<Proc>, children: seq<Proc>)
    requires popped + queue == [root] + Pids(found) && queue != []
    ensures (popped + [queue[0]]) + (queue[1..] + Pids(children)) == [root] + Pids(found + children)
  {
    assert (popped + [queue[0]]) + (queue[1..] + Pids(children)) == (popped + queue) + Pids(children);
    assert [root] + Pids(found + children) == ([root] + Pids(found)) + Pids(children);
  }

  lemma DifferentRows(table: Table, p: Proc, q: Proc)
    requires UniquePids(table) && p in table && q in table && p != q
    ensures p.pid != q.pid
  {
  }

  /** With nothing left to visit, every line of descent has been followed to its end. */
  lemma {:induction false} ChainIsFound(table: Table, root: int, popped: seq<int>, found: seq<Proc>, c: seq<Proc>)
    requires popped == [root] + Pids(found) && Chain(table, root, c)
    requires forall p :: p in table && p.ppid in popped ==> p in found
    ensures Last(c) in found
    decreases |c|
  {
    assert Last(c) in table;
    if |c| == 1 {
      assert popped[0] == root;
    } else {
      var before := c[..|c| - 1];
      var parent := c[|c| - 2];
      assert Last(before) == parent && Last(c).ppid == parent.pid;
      ChainIsFound(table, root, popped, found, before);
      PidIsListed(root, found, parent);
    }
  }

  lemma PidIsListed(root: int, found: seq<Proc>, p: Proc)
    requires p in found
    ensures p.pid in [root] + Pids(found)
  {
  }

  /**
   * `descendants`: the queue loop, which keeps no visited set. On a table with unique pids in which the root is not its
   * own ancestor it terminates with exactly the processes below the root, each once.
   */
  method Collect(table: Table, root: int) returns (found: seq<Proc>)
    requires UniquePids(table) && !InCycle(table, root)
    ensures forall p :: p in found <==> Descends(table, root, p)
    ensures UniquePids(found)
  {
    hide Descends, InCycle, ChildrenOf, UniquePids;
    var byParent := ByParent(table);
    found := [];
    var queue := [root];
    ghost var popped: seq<int> := [];
    StartsWell(table, root);
    while queue != []
      invariant Progress(table, root, popped, queue, found)
      decreases |table| + 1 - |popped|
    {
      hide Progress;
      ProgressBound(table, root, popped, queue, found);
      ProgressStep(table, root, popped, queue, found);
      var pid := queue[0];
      queue := queue[1..];
      popped := popped + [pid];
      var children := if pid in byParent then byParent[pid] else [];
      found, queue := Append(found, queue, children);
    }
    assert popped == popped + queue;
    forall p ensures p in found <==> Descends(table, root, p) {
      if Descends(table, root, p) {
        var c := LineOf(table, root, p);
        ChainIsFound(table, root, popped, found, c);
      }
    }
  }

  /** The inner loop: every child goes to the result and to the queue. */
  method Append(found: seq<Proc>, queue: seq<int>, children: seq<Proc>) returns (found': seq<Proc>, queue': seq<int>)
    ensures found' == found + children && queue' == queue + Pids(children)
  {
    found', queue' := found, queue;
    for i := 0 to |children|
      invariant found' == found + children[..i] && queue' == queue + Pids(children[..i])
    {
      found' := found' + [children[i]];
      queue' := queue' + [children[i].pid];
    }
    assert children[..|children|] == children;
  }

  lemma StartsWell(table: Table, root: int)
    ensures Progress(table, root, [], [root], [])
  {
  }

  lemma LineOf(table: Table, root: int, p: Proc) returns (c: seq<Proc>)
    requires Descends(table, root, p)
    ensures Chain(table, root, c) && Last(c) == p
  {
    c :| Chain(table, root, c) && Last(c) == p;
  }

  lemma ProgressBound(table: Table, root: int, popped: seq<int>, queue: seq<int>, found: seq<Proc>)
    requires Progress(table, root, popped, queue, found)
    ensures |popped| + |queue| == 1 + |found| && |found| <= |table|
  {
    DistinctRowsFit(found, table);
    assert |popped| + |queue| == |popped + queue| == 1 + |found|;
  }

  /** The index by parent. */
  method ByParent(table: Table) returns (byParent: map<int, seq<Proc>>)
    ensures forall pid :: if pid in byParent then byParent[pid] == ChildrenOf(table, pid)
              else ChildrenOf(table, pid) == []
  {
    byParent := map[];
    for i := 0 to |table|
      invariant forall pid ::
        if pid in byParent then byParent[pid] == ChildrenOf(table[..i], pid) else ChildrenOf(table[..i], pid) == []
    {
      assert table[..i + 1][..i] == table[..i];
      var entry := table[i];
      var siblings := if entry.ppid in byParent then byParent[entry.ppid] else [];
      byParent := byParent[entry.ppid := siblings + [entry]];
    }
    assert table[..|table|] == table;
  }

  // ---- The loop does not end when the root is its own ancestor ----

  /** The queue after n turns of the loop. */
  function QueueAfter(table: Table, root: int, n: nat): seq<int> {
    if n == 0 then [root]
    else
      var queue := QueueAfter(table, root, n - 1);
      if queue == [] then [] else queue[1..] + Pids(ChildrenOf(table, queue[0]))
  }

  ghost predicate LeadsBack(table: Table, pid: int, root: int) {
    exists c :: Chain(table, pid, c) && Last(c).pid == root
  }

  /** Popping a pid that leads back to the root appends a child that does too. */
  lemma {:induction false} ChildLeadsBack(table: Table, pid: int, root: int) returns (child: Proc)
    requires InCycle(table, root) && LeadsBack(table, pid, root)
    ensures child in ChildrenOf(table, pid) && LeadsBack(table, child.pid, root)
  {
    hide ChildrenOf;
    var c: seq<Proc> :| Chain(table, pid, c) && Last(c).pid == root;
    child := c[0];
    assert child in table;
    if |c| > 1 {
      assert Chain(table, child.pid, c[1..]) && Last(c[1..]) == Last(c);
    }
  }

  lemma {:induction false} CycleStaysQueued(table: Table, root: int, n: nat) returns (pid: int)
    requires InCycle(table, root)
    ensures pid in QueueAfter(table, root, n) && LeadsBack(table, pid, root)
  {
    hide InCycle, LeadsBack, ChildrenOf;
    if n == 0 {
      pid := root;
      CycleLeadsBack(table, root);
    } else {
      var queue := QueueAfter(table, root, n - 1);
      pid := CycleStaysQueued(table, root, n - 1);
      if pid == queue[0] {
        var child := ChildLeadsBack(table, pid, root);
        QueuedChild(queue, ChildrenOf(table, pid), child);
        pid := child.pid;
      }
    }
  }

  lemma CycleLeadsBack(table: Table, root: int)
    requires InCycle(table, root)
    ensures LeadsBack(table, root, root)
  {
  }

  lemma QueuedChild(queue: seq<int>, children: seq<Proc>, child: Proc)
    requires queue != [] && child in children
    ensures child.pid in queue[1..] + Pids(children)
  {
  }

  /** The queue runs empty exactly when the root is not its own ancestor. */
  lemma {:induction false} TerminatesExactly(table: Table, root: int)
    requires UniquePids(table)
    ensures (exists n :: QueueAfter(table, root, n) == []) <==> !InCycle(table, root)
  {
    if InCycle(table, root) {
      forall n: nat ensures QueueAfter(table, root, n) != [] {
        var pid := CycleStaysQueued(table, root, n);
      }
    } else {
      var n := RunsEmpty(table, root, 0, [], [root], []);
    }
  }

  lemma {:induction false} RunsEmpty(
    table: Table, root: int, k: nat, popped: seq<int>, queue: seq<int>, found: seq<Proc>
  ) returns (n: nat)
    requires UniquePids(table) && !InCycle(table, root)
    requires Progress(table, root, popped, queue, found) && queue == QueueAfter(table, root, k)
    ensures QueueAfter(table, root, n) == []
    decreases |table| + 1 - |popped|
  {
    if queue == [] {
      n := k;
    } else {
      ProgressBound(table, root, popped, queue, found);
      ProgressStep(table, root, popped, queue, found);
      var children := ChildrenOf(table, queue[0]);
      n := RunsEmpty(table, root, k + 1, popped + [queue[0]], queue[1..] + Pids(children), found + children);
    }
  }

  /** A parent cycle turned back by one step, to start at the parent. */
  lemma {:induction false} CycleTurns(table: Table, x: Proc)
    requires UniquePids(table) && x in table && LeadsBack(table, x.pid, x.pid)
    ensures LeadsBack(table, x.ppid, x.ppid)
  {
    var d: seq<Proc> :| Chain(table, x.pid, d) && Last(d).pid == x.pid;
    assert Last(d) in table;
    if Last(d) != x {
      DifferentRows(table, Last(d), x);
    }
    var turned := [x] + d[..|d| - 1];
    assert forall i :: 0 <= i < |turned| - 1 ==> turned[i + 1] == d[i];
    assert Chain(table, x.ppid, turned) && Last(turned).pid == x.ppid;
  }

  /** With unique pids any parent cycle reachable from the root runs through the root. */
  lemma {:induction false} ReachableCycleIsTheRoots(table: Table, root: int, c: seq<Proc>)
    requires UniquePids(table) && Chain(table, root, c) && LeadsBack(table, Last(c).pid, Last(c).pid)
    ensures InCycle(table, root)
    decreases |c|
  {
    hide LeadsBack, UniquePids;
    var x := Last(c);
    assert x in table;
    CycleTurns(table, x);
    if |c| == 1 {
      BackAtTheRoot(table, root);
    } else {
      var before := c[..|c| - 1];
      assert Last(before) == c[|c| - 2] && x.ppid == Last(before).pid;
      ReachableCycleIsTheRoots(table, root, before);
    }
  }

  lemma BackAtTheRoot(table: Table, root: int)
    requires LeadsBack(table, root, root)
    ensures InCycle(table, root)
  {
  }
}
