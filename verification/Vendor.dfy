/** The vendoring closure (vendorClosure in cmd/vendorhive/main.go). */
module Vendor {
  import opened Collections
  import opened Sorting
  import opened Text

  /** What `copyPackage` returns for each package it can copy: the packages its files import. */
  type Imports = map<string, seq<string>>

  /** A path of imports from a seed to `p`. */
  ghost predicate Path(imports: Imports, seeds: set<string>, path: seq<string>) {
    && |path| > 0 && path[0] in seeds
    && forall i :: 0 <= i < |path| - 1 ==> path[i] in imports && path[i + 1] in imports[path[i]]
  }

  ghost predicate Needed(imports: Imports, seeds: set<string>, p: string) {
    exists path :: Path(imports, seeds, path) && path[|path| - 1] == p
  }

  /** `s` contains the seeds and everything its packages import. */
  ghost predicate Closed(imports: Imports, seeds: set<string>, s: set<string>) {
    seeds <= s && forall p, q :: p in s && p in imports && q in imports[p] ==> q in s
  }

  lemma NeededStep(imports: Imports, seeds: set<string>, p: string, q: string)
    requires Needed(imports, seeds, p) && p in imports && q in imports[p]
    ensures Needed(imports, seeds, q)
  {
    var path :| Path(imports, seeds, path) && path[|path| - 1] == p;
    assert Path(imports, seeds, path + [q]) && (path + [q])[|path + [q]| - 1] == q;
  }

  lemma SeedIsNeeded(imports: Imports, seeds: set<string>, p: string)
    requires p in seeds
    ensures Needed(imports, seeds, p)
  {
    assert Path(imports, seeds, [p]) && [p][|[p]| - 1] == p;
  }

  /** Everything needed lies in every closed set: the needed packages are the least one. */
  lemma {:induction false} NeededIsLeast(imports: Imports, seeds: set<string>, s: set<string>, path: seq<string>)
    requires Closed(imports, seeds, s) && Path(imports, seeds, path)
    ensures path[|path| - 1] in s
    decreases |path|
  {
    if |path| > 1 {
      NeededIsLeast(imports, seeds, s, path[..|path| - 1]);
      assert path[|path| - 2] in s;
    }
  }

  lemma NeededInClosed(imports: Imports, seeds: set<string>, s: set<string>, p: string)
    requires Closed(imports, seeds, s) && Needed(imports, seeds, p)
    ensures p in s
  {
    var path :| Path(imports, seeds, path) && path[|path| - 1] == p;
    NeededIsLeast(imports, seeds, s, path);
  }

  /** What the queue loop keeps. */
  ghost predicate Working(
    imports: Imports, seeds: set<string>, queue: seq<string>, done: set<string>, copied: seq<string>
  ) {
    && (forall p :: p in queue || p in done ==> Needed(imports, seeds, p))
    && (forall p :: p in seeds ==> p in queue || p in done)
    && (forall p, q :: p in done && p in imports && q in imports[p] ==> q in queue || q in done)
    && done <= imports.Keys
    && Distinct(copied) && forall p :: p in copied <==> p in done
  }

  lemma {:induction false} WorkingStep(
    imports: Imports, seeds: set<string>, queue: seq<string>, done: set<string>, copied: seq<string>, more:
    seq<string>
  )
    requires Working(imports, seeds, queue, done, copied) && queue != []
    requires queue[0] !in done && queue[0] in imports && forall q :: q in more <==> q in imports[queue[0]]
    ensures Working(imports, seeds, queue[1..] + more, done + {queue[0]}, copied + [queue[0]])
  {
    hide Needed;
    var p, rest := queue[0], queue[1..] + more;
    assert forall q :: q in queue ==> q == p || q in rest;
    forall q | q in rest ensures Needed(imports, seeds, q) {
      if q in queue[1..] {
        assert q in queue;
      } else {
        NeededStep(imports, seeds, p, q);
      }
    }
  }

  lemma {:induction false} WorkingSkip(
    imports: Imports, seeds: set<string>, queue: seq<string>, done: set<string>, copied: seq<string>
  )
    requires Working(imports, seeds, queue, done, copied) && queue != [] && queue[0] in done
    ensures Working(imports, seeds, queue[1..], done, copied)
  {
  }

  method SeedQueue(seeds: set<string>) returns (queue: seq<string>)
    ensures forall p :: p in queue <==> p in seeds
  {
    queue := [];
    var left := seeds;
    while left != {}
      invariant left <= seeds && forall p :: p in queue <==> p in seeds && p !in left
      decreases left
    {
      var p :| p in left;
      queue := queue + [p];
      left := left - {p};
    }
    ghost var unsorted := queue;
    queue := Sort(queue);
    SameMembers(unsorted, queue);
  }

  /**
   * `vendorClosure`: on any finite import graph, cyclic or not, the loop ends. It fails exactly when a needed package
   * cannot be copied; otherwise it returns the needed packages in order, each copied once however often it was queued.
   */
  method VendorClosure(imports: Imports, seeds: set<string>) returns (pkgs: Option<seq<string>>, copied: seq<string>)
    ensures pkgs.Some? <==> forall p :: Needed(imports, seeds, p) ==> p in imports
    ensures pkgs.Some? ==> Ascending(pkgs.value) && forall p :: p in pkgs.value <==> Needed(imports, seeds, p)
    ensures Distinct(copied) && forall p :: p in copied ==> Needed(imports, seeds, p)
    ensures pkgs.Some? ==> multiset(pkgs.value) == multiset(copied)
  {
    hide Needed, Closed;
    var queue := SeedQueue(seeds);
    var done: set<string> := {};
    copied := [];
    forall p | p in seeds ensures Needed(imports, seeds, p) {
      SeedIsNeeded(imports, seeds, p);
    }
    while queue != []
      invariant Working(imports, seeds, queue, done, copied)
      decreases |imports.Keys - done|, |queue|
    {
      var p := queue[0];
      if p in done {
        WorkingSkip(imports, seeds, queue, done, copied);
        queue := queue[1..];
      } else {
        if p !in imports {
          return None, copied;
        }
        SameMembers(imports[p], Sort(imports[p]));
        WorkingStep(imports, seeds, queue, done, copied, Sort(imports[p]));
        assert imports.Keys - (done + {p}) == imports.Keys - done - {p};
        done := done + {p};
        copied := copied + [p];
        queue := queue[1..] + Sort(imports[p]);
      }
    }
    Complete(imports, seeds, done, copied);
    pkgs := Some(Sort(copied));
    SameMembers(copied, Sort(copied));
  }

  lemma {:induction false} Complete(imports: Imports, seeds: set<string>, done: set<string>, copied: seq<string>)
    requires Working(imports, seeds, [], done, copied)
    ensures forall p :: p in done <==> Needed(imports, seeds, p)
  {
    hide Needed;
    assert Closed(imports, seeds, done);
    forall p | Needed(imports, seeds, p) ensures p in done {
      NeededInClosed(imports, seeds, done, p);
    }
  }

  /** The result is the least set that contains the seeds and is closed under imports. */
  lemma {:induction false} NeededIsLeastClosed(imports: Imports, seeds: set<string>, s: set<string>)
    requires forall p :: p in s <==> Needed(imports, seeds, p)
    ensures Closed(imports, seeds, s) && forall t: set<string> :: Closed(imports, seeds, t) ==> s <= t
  {
    hide Needed;
    forall p | p in seeds ensures p in s {
      SeedIsNeeded(imports, seeds, p);
    }
    forall p, q | p in s && p in imports && q in imports[p] ensures q in s {
      NeededStep(imports, seeds, p, q);
    }
    forall t: set<string> | Closed(imports, seeds, t) ensures s <= t {
      forall p | p in s ensures p in t {
        NeededInClosed(imports, seeds, t, p);
      }
    }
  }
}
