/** The live overlay store: accumulated overlays and the bounded list of observed items (cmd/devserver/overlay.go). */
module Stores {
  import opened Collections
  import opened Text
  import opened Overlay

  // ---- Accumulating overlays ----

  /** A mutation that changes anything but the update time advances that time. */
  function Stamped(m: Mutations, now: string): Mutations {
    if m.updatedAt.None? && !Empty(m) then m.(updatedAt := Some(now)) else m
  }

  datatype Op = Apply(key: string, set_: Mutations, now: string) | Clear(key: string) | ClearAll

  function Current(ov: Overlays, key: string): Mutations { if key in ov then ov[key] else NOTHING }

  function AfterOp(ov: Overlays, op: Op): Overlays {
    match op
    case Apply(key, m, now) => ov[key := Merge(Current(ov, key), Stamped(m, now))]
    case Clear(key) => ov - {key}
    case ClearAll => map[]
  }

  function AfterOps(ops: seq<Op>): Overlays {
    if ops == [] then map[] else AfterOp(AfterOps(ops[..|ops| - 1]), ops[|ops| - 1])
  }

  /** The mutations applied to `key` since it was last cleared. */
  function SinceClear(ops: seq<Op>, key: string): seq<Mutations> {
    if ops == [] then []
    else
      var before := SinceClear(ops[..|ops| - 1], key);
      match ops[|ops| - 1]
      case Apply(k, m, now) => if k == key then before + [Stamped(m, now)] else before
      case Clear(k) => if k == key then [] else before
      case ClearAll => []
  }

  lemma {:induction false} OverlayIsMerge(ops: seq<Op>, key: string)
    ensures key in AfterOps(ops) <==> SinceClear(ops, key) != []
    ensures key in AfterOps(ops) ==> AfterOps(ops)[key] == MergeAll(SinceClear(ops, key))
  {
    hide Merge, Stamped;
    if ops != [] {
      var before := ops[..|ops| - 1];
      OverlayIsMerge(before, key);
      match ops[|ops| - 1] {
        case Apply(k, m, now) =>
          if k == key {
            var ms := SinceClear(before, key);
            assert (ms + [Stamped(m, now)])[..|ms|] == ms;
          }
        case Clear(k) =>
        case ClearAll =>
      }
    }
  }

  /**
   * After any calls and scenario steps an item is rendered as if each mutation since the last clear had been applied
   * in order.
   */
  lemma {:induction false} RenderedInOrder(ops: seq<Op>, node: Fields)
    ensures RewriteNode(AfterOps(ops), node) == ApplyAll(node, SinceClear(ops, KeyOf(node)))
  {
    hide ApplyNode, KeyOf, MergeAll;
    var key := KeyOf(node);
    OverlayIsMerge(ops, key);
    MergedRendersInOrder(node, SinceClear(ops, key));
  }

  // ---- The observed list ----

  datatype Item = Item(repo: string, num: int, kind: string, title: string, state: string, lastSeen: int)

  type Observed = map<string, Item>

  const MAX_OBSERVED := 500

  /** What eviction may do: drop only items without an overlay, oldest first, and only down to one below the cap. */
  ghost predicate Evicts(before: Observed, ov: Overlays, after: Observed) {
    && (forall k :: k in after ==> k in before && after[k] == before[k])
    && (forall k :: k in before && k !in after ==> k !in ov)
    && (forall k, j :: k in before && k !in after && j in after && j !in ov ==>
         before[k].lastSeen <= before[j].lastSeen)
    && (|before| < MAX_OBSERVED ==> after == before)
    && (after != before ==> |after| >= MAX_OBSERVED - 1)
    && (|after| < MAX_OBSERVED || forall k :: k in after ==> k in ov)
  }

  datatype Aged = Aged(key: string, seen: int)

  predicate OldestFirst(s: seq<Aged>) { forall i, j :: 0 <= i < j < |s| ==> s[i].seen <= s[j].seen }

  function InsertAged(x: Aged, s: seq<Aged>): (r: seq<Aged>)
    ensures multiset(r) == multiset{x} + multiset(s)
  {
    if s == [] || x.seen <= s[0].seen then [x] + s
    else
      assert s == [s[0]] + s[1..];
      [s[0]] + InsertAged(x, s[1..])
  }

  lemma {:induction false} InsertKeepsOrder(x: Aged, s: seq<Aged>)
    requires OldestFirst(s)
    ensures OldestFirst(InsertAged(x, s))
  {
    if s != [] && x.seen > s[0].seen {
      var rest := InsertAged(x, s[1..]);
      InsertKeepsOrder(x, s[1..]);
      forall i | 0 <= i < |rest| ensures s[0].seen <= rest[i].seen {
        assert rest[i] in multiset(rest);
        assert rest[i] == x || rest[i] in multiset(s[1..]);
      }
    }
  }

  /** `sort.Slice` by last sighting. */
  function SortAged(s: seq<Aged>): (r: seq<Aged>)
    ensures OldestFirst(r) && multiset(r) == multiset(s)
  {
    if s == [] then []
    else
      assert s == [s[0]] + s[1..];
      InsertKeepsOrder(s[0], SortAged(s[1..]));
      InsertAged(s[0], SortAged(s[1..]))
  }

  predicate DistinctAged(s: seq<Aged>) { forall i, j :: 0 <= i < j < |s| ==> s[i].key != s[j].key }

  lemma {:induction false} SortKeepsDistinct(s: seq<Aged>)
    requires DistinctAged(s)
    ensures DistinctAged(SortAged(s)) && |SortAged(s)| == |s|
    ensures forall x :: x in SortAged(s) <==> x in s
  {
    var r := SortAged(s);
    SameMembers(s, r);
    assert Distinct(s);
    PermutationIsDistinct(s, r);
    forall i, j | 0 <= i < j < |r| ensures r[i].key != r[j].key {
      assert r[i] in s && r[j] in s;
    }
  }

  lemma RemovingOne(m: Observed, k: string)
    requires k in m
    ensures |m - {k}| == |m| - 1 && forall j :: j in m - {k} <==> j in m && j != k
  {
  }

  ghost predicate OthersKept(before: Overlays, after: Overlays, key: string) {
    forall k :: k != key ==> (k in after <==> k in before) && (k in after ==> after[k] == before[k])
  }

  function OrElse(s: string, default_: string): string { if s != "" then s else default_ }

  /** A list that was never full has forgotten nothing; once full, it does not shrink below the cap again. */
  ghost predicate Remembers(before: Observed, after: Observed) {
    |after| >= MAX_OBSERVED || (|before| < MAX_OBSERVED && forall k :: k in before ==> k in after)
  }

  /** The item is on the list, unless the list has been full. */
  ghost predicate Noted(observed: Observed, repo: string, num: int) {
    repo != "" && num > 0 ==> |observed| >= MAX_OBSERVED || ItemKey(repo, num) in observed
  }

  /** Every item of one top-level value that the rewriting passes by. */
  ghost predicate ResultNoted(ov: Overlays, observed: Observed, result: Fields) {
    && (HasAlias(result) ==> NodeNoted(observed, result[ALIAS]))
    && (!AliasOverlaid(ov, result) && NODES in result && result[NODES].Arr? ==>
          forall i :: 0 <= i < |result[NODES].items| ==> NodeNoted(observed, result[NODES].items[i]))
  }

  ghost predicate NodeNoted(observed: Observed, node: Json) {
    node.Obj? ==> Noted(observed, Identity(node.fields).0, Identity(node.fields).1)
  }

  ghost predicate EntryNoted(observed: Observed, entry: Json) {
    entry.Obj? ==> Noted(observed, RepoOf(entry.fields), NumberFromApiUrl(StringField(SubjectOf(entry.fields), "url")))
  }

  lemma NotedStays(before: Observed, after: Observed)
    requires Remembers(before, after)
    ensures forall repo, num :: Noted(before, repo, num) ==> Noted(after, repo, num)
    ensures forall node :: NodeNoted(before, node) ==> NodeNoted(after, node)
    ensures forall entry :: EntryNoted(before, entry) ==> EntryNoted(after, entry)
  {
    hide ItemKey, Identity, RepoOf, NumberFromApiUrl;
  }

  lemma ResultStaysNoted(ov: Overlays, before: Observed, after: Observed)
    requires Remembers(before, after)
    ensures forall result :: ResultNoted(ov, before, result) ==> ResultNoted(ov, after, result)
  {
    hide NodeNoted, AliasOverlaid, Remembers;
    NotedStays(before, after);
  }

  lemma EvictionRemembers(before: Observed, ov: Overlays, kept: Observed, key: string, item: Item)
    requires Evicts(before, ov, kept) && key !in before
    ensures Remembers(before, kept[key := item])
  {
    assert kept[key := item].Keys == kept.Keys + {key} && key !in kept;
    assert |kept[key := item].Keys| == |kept.Keys| + 1;
  }

  class Store {
    var overlays: Overlays
    var observed: Observed
    ghost var ops: seq<Op>

    ghost predicate Valid()
      reads this
    {
      overlays == AfterOps(ops)
    }

    constructor ()
      ensures Valid() && ops == [] && observed == map[]
    {
      overlays, observed, ops := map[], map[], [];
    }

    /** `Apply`. */
    method Apply(key: string, next: Mutations, now: string) returns (merged: Mutations)
      requires Valid()
      modifies this
      ensures Valid() && ops == old(ops) + [Op.Apply(key, next, now)] && observed == old(observed)
      ensures key in overlays && merged == overlays[key] && OthersKept(old(overlays), overlays, key)
      ensures var was := if key in old(overlays) then old(overlays)[key] else NOTHING;
              && merged.state == (if next.state.Some? then next.state else was.state)
              && merged.labels == (if next.labels.Some? then next.labels else was.labels)
              && merged.reason == (if next.reason.Some? then next.reason else was.reason)
              && merged.title == (if next.title.Some? then next.title else was.title)
              && merged.body == (if next.body.Some? then next.body else was.body)
              && merged.draft == (if next.draft.Some? then next.draft else was.draft)
              && merged.absent == (if next.absent.Some? then next.absent else was.absent)
              && (next == NOTHING ==> merged == was)
              && (next != NOTHING ==>
                    merged.updatedAt == Some(if next.updatedAt.Some? then next.updatedAt.value else now))
    {
      var set_ := next;
      if set_.updatedAt.None? && !Empty(set_) {
        set_ := set_.(updatedAt := Some(now));
      }
      merged := Merge(if key in overlays then overlays[key] else NOTHING, set_);
      overlays := overlays[key := merged];
      ops := ops + [Op.Apply(key, next, now)];
      assert ops[..|ops| - 1] == old(ops);
    }

    method Clear(key: string)
      requires Valid()
      modifies this
      ensures Valid() && ops == old(ops) + [Op.Clear(key)] && observed == old(observed)
      ensures key !in overlays && OthersKept(old(overlays), overlays, key)
    {
      overlays := overlays - {key};
      ops := ops + [Op.Clear(key)];
      assert ops[..|ops| - 1] == old(ops);
    }

    method ClearAll()
      requires Valid()
      modifies this
      ensures Valid() && ops == old(ops) + [Op.ClearAll] && observed == old(observed) && overlays == map[]
    {
      overlays := map[];
      ops := ops + [Op.ClearAll];
      assert ops[..|ops| - 1] == old(ops);
    }

    /** The items eviction may drop, oldest first. */
    method Candidates() returns (candidates: seq<Aged>)
      ensures OldestFirst(candidates) && DistinctAged(candidates)
      ensures forall k :: (k in observed && k !in overlays) <==>
                exists i :: 0 <= i < |candidates| && candidates[i].key == k
      ensures forall i :: 0 <= i < |candidates| ==>
                candidates[i].key in observed && candidates[i].seen == observed[candidates[i].key].lastSeen
    {
      candidates := [];
      var left := observed.Keys;
      while left != {}
        invariant left <= observed.Keys && DistinctAged(candidates)
        invariant forall a :: a in candidates ==>
                    a.key in observed && a.key !in left && a.key !in overlays && a.seen == observed[a.key].lastSeen
        invariant forall k :: k in observed && k !in left && k !in overlays ==>
                    Aged(k, observed[k].lastSeen) in candidates
        decreases left
      {
        var key :| key in left;
        if key !in overlays {
          candidates := candidates + [Aged(key, observed[key].lastSeen)];
        }
        left := left - {key};
      }
      ghost var unsorted := candidates;
      candidates := SortAged(candidates);
      SortKeepsDistinct(unsorted);
      forall k | k in observed && k !in overlays ensures exists i :: 0 <= i < |candidates| && candidates[i].key == k {
        assert Aged(k, observed[k].lastSeen) in candidates;
      }
    }

    /** `evictLocked`. */
    method Evict()
      modifies this`observed
      ensures Evicts(old(observed), overlays, observed)
    {
      hide Evicts;
      if |observed| < MAX_OBSERVED {
        NothingToEvict(observed, overlays);
        return;
      }
      var candidates := Candidates();
      for i := 0 to |candidates|
        invariant forall k :: k in observed <==> k in old(observed) && forall j :: 0 <= j < i ==> candidates[j].key != k
        invariant forall k :: k in observed ==> observed[k] == old(observed[k])
        invariant i > 0 ==> |observed| >= MAX_OBSERVED - 1
        invariant i == 0 ==> observed == old(observed) && |observed| >= MAX_OBSERVED
      {
        if |observed| < MAX_OBSERVED {
          OldestGo(old(observed), overlays, observed, candidates, i);
          return;
        }
        RemovingOne(observed, candidates[i].key);
        observed := observed - {candidates[i].key};
      }
      OldestGo(old(observed), overlays, observed, candidates, |candidates|);
    }

    /** `observe`. */
    method Observe(repo: string, num: int, kind: string, title: string, state: string, now: int)
      modifies this`observed
      ensures repo == "" || num <= 0 ==> observed == old(observed)
      ensures repo != "" && num > 0 ==>
                var key := ItemKey(repo, num);
                && key in observed && observed[key].lastSeen == now
                && (key !in old(observed) ==> observed[key] == Item(repo, num, kind, title, state, now))
                && (key in old(observed) ==>
                      var was := old(observed)[key];
                      observed[key] == Item(was.repo, was.num, OrElse(kind, was.kind), OrElse(title, was.title),
                                            OrElse(state, was.state), now))
                && (key in old(observed) ==> observed.Keys == old(observed.Keys))
                && (key !in old(observed) ==> Evicts(old(observed), overlays, observed - {key}))
                && (forall k :: k in observed && k != key ==> k in old(observed) && observed[k] == old(observed[k]))
      ensures Moves(Snapshot(overlays, old(observed)), Snapshot(overlays, observed))
      ensures Remembers(old(observed), observed) && Noted(observed, repo, num)
    {
      if repo == "" || num <= 0 {
        return;
      }
      var key := ItemKey(repo, num);
      var item := Item(repo, num, "", "", "", now);
      if key in observed {
        item := observed[key].(lastSeen := now);
      } else {
        Evict();
      }
      item := item.(kind := if kind != "" then kind else item.kind,
                    title := if title != "" then title else item.title,
                    state := if state != "" then state else item.state);
      ghost var kept := observed;
      observed := observed[key := item];
      if key !in old(observed) {
        assert observed - {key} == kept;
        EvictionRemembers(old(observed), overlays, kept, key, item);
        assert Added(Snapshot(overlays, old(observed)), observed, key, item, kept);
      } else {
        assert Listed(old(observed), observed, key, item);
        assert observed.Keys == old(observed).Keys && |observed.Keys| == |observed|;
      }
    }

    /** Nothing overlaid has left the list, and nothing at all has unless it was full. */
    twostate predicate ProtectedKept()
      reads this
    {
      overlays == old(overlays) && ops == old(ops) && Remembers(old(observed), observed)
      && forall k :: k in old(observed) && k in overlays ==> k in observed
    }

    /** The loop over search nodes: note each item, drop the absent ones, render the rest. */
    method RewriteSearch(nodes: seq<Json>, now: int) returns (kept: seq<Json>)
      modifies this`observed
      ensures kept == RewriteNodes(overlays, nodes) && ProtectedKept()
      ensures forall i :: 0 <= i < |nodes| ==> NodeNoted(observed, nodes[i])
    {
      hide ApplyNode, KeyOf, Evicts, Noted;
      kept := [];
      for i := 0 to |nodes|
        invariant kept == RewriteNodes(overlays, nodes[..i]) && ProtectedKept()
        invariant forall j :: 0 <= j < i ==> NodeNoted(observed, nodes[j])
      {
        assert nodes[..i + 1][..i] == nodes[..i];
        if !nodes[i].Obj? {
          kept := kept + [nodes[i]];
        } else {
          var node := nodes[i].fields;
          var (repo, num) := Identity(node);
          ghost var before := observed;
          ObserveProtected(repo, num, KindOf(node), StringField(node, "title"), Lower(StringField(node, "state")), now);
          NotedStays(before, observed);
          var overlay := OverlayOf(overlays, node);
          if overlay.None? {
            kept := kept + [nodes[i]];
          } else if overlay.value.absent != Some(true) {
            kept := kept + [Obj(ApplyNode(node, overlay.value))];
          }
        }
      }
      assert nodes[..|nodes|] == nodes;
    }

    method ObserveProtected(repo: string, num: int, kind: string, title: string, state: string, now: int)
      modifies this`observed
      ensures ProtectedKept() && Noted(observed, repo, num)
    {
      hide ItemKey, Remembers, Noted;
      Observe(repo, num, kind, title, state, now);
      if repo != "" && num > 0 {
        var key := ItemKey(repo, num);
        forall k | k in old(observed) && k in overlays ensures k in observed {
          if k != key && key !in old(observed) {
            assert k in observed - {key};
          }
        }
      }
    }

    /** `RewriteGraphQL`: every top-level value of `data`, in whatever order the map yields them. */
    method RewriteBody(payload: Json, now: int) returns (rewritten: Json)
      modifies this`observed
      ensures rewritten == RewriteGraphQL(overlays, payload) && ProtectedKept()
      ensures payload.Obj? && DATA in payload.fields && payload.fields[DATA].Obj? ==>
                var data := payload.fields[DATA].fields;
                forall k :: k in data && data[k].Obj? ==> ResultNoted(overlays, observed, data[k].fields)
    {
      hide RewriteNodes, RewriteNode, OverlayOf, Identity, ResultNoted;
      if !payload.Obj? || DATA !in payload.fields || !payload.fields[DATA].Obj? {
        return payload;
      }
      var data := payload.fields[DATA].fields;
      var out: Fields := data;
      var left := data.Keys;
      while left != {}
        invariant left <= data.Keys && ProtectedKept() && out.Keys == data.Keys
        invariant forall k :: k in data && k !in left && data[k].Obj? ==>
                    ResultNoted(overlays, observed, data[k].fields)
        invariant forall k :: k in data ==> out[k] == if k in left then data[k] else RewriteValue(overlays, data[k])
        decreases left
      {
        var k :| k in left;
        if data[k].Obj? {
          ghost var before := observed;
          var result := RewriteOne(data[k].fields, now);
          ResultStaysNoted(overlays, before, observed);
          out := out[k := Obj(result)];
        }
        left := left - {k};
      }
      assert out == RewriteData(overlays, data);
      rewritten := Obj(payload.fields[DATA := Obj(out)]);
    }

    /** One top-level value: `rewriteItemAlias`, else the search nodes. */
    method RewriteOne(result: Fields, now: int) returns (rewritten: Fields)
      modifies this`observed
      ensures rewritten == RewriteResult(overlays, result) && ProtectedKept() && ResultNoted(overlays, observed, result)
      ensures Remembers(old(observed), observed)
    {
      hide ApplyNode, KeyOf, RewriteNodes, Noted;
      if HasAlias(result) {
        var node := result[ALIAS].fields;
        var (repo, num) := Identity(node);
        ObserveProtected(repo, num, KindOf(node), "", Lower(StringField(node, "state")), now);
        if OverlayOf(overlays, node).Some? {
          return result[ALIAS := Obj(ApplyNode(node, OverlayOf(overlays, node).value))];
        }
      }
      if NODES in result && result[NODES].Arr? {
        ghost var before := observed;
        var kept := RewriteSearch(result[NODES].items, now);
        NotedStays(before, observed);
        return result[NODES := Arr(kept)];
      }
      rewritten := result;
    }

    /** `RewriteNotifications`. */
    method RewriteInbox(payload: Json, now: int) returns (rewritten: Json)
      modifies this`observed
      ensures rewritten == RewriteNotifications(overlays, payload) && ProtectedKept()
      ensures payload.Arr? && AllObjects(payload.items) ==>
                forall i :: 0 <= i < |payload.items| ==> EntryNoted(observed, payload.items[i])
    {
      hide ApplyNotification, NotificationKey, NumberFromApiUrl, Noted;
      if !payload.Arr? || !AllObjects(payload.items) {
        return payload;
      }
      var items := payload.items;
      for i := 0 to |items|
        invariant ProtectedKept() && |items| == |payload.items|
        invariant forall j :: 0 <= j < i ==> EntryNoted(observed, payload.items[j])
        invariant forall j :: 0 <= j < |items| ==>
                    items[j] == if j < i then RewriteItem(overlays, payload.items[j]) else payload.items[j]
      {
        if items[i].Obj? {
          var entry := items[i].fields;
          var subject := SubjectOf(entry);
          ghost var before := observed;
          ObserveProtected(RepoOf(entry), NumberFromApiUrl(StringField(subject, "url")),
                           SubjectKind(StringField(subject, "type")), StringField(subject, "title"), "", now);
          NotedStays(before, observed);
          if NotificationKey(entry) in overlays {
            items := items[i := Obj(ApplyNotification(entry, overlays[NotificationKey(entry)]))];
          }
        }
      }
      rewritten := Arr(items);
      assert items == RewriteNotifications(overlays, payload).items;
    }

    /** `runScenario`: the steps in order, those that set something applied to the store. */
    method RunScenario(steps: seq<ScenarioStep>)
      requires Valid()
      modifies this
      ensures Valid() && ops == old(ops) + ScenarioOps(steps) && observed == old(observed)
    {
      hide AfterOps;
      for i := 0 to |steps|
        invariant Valid() && ops == old(ops) + ScenarioOps(steps[..i]) && observed == old(observed)
      {
        assert steps[..i + 1][..i] == steps[..i];
        if !Empty(steps[i].set_) {
          var _ := Apply(steps[i].key, steps[i].set_, steps[i].now);
        }
      }
      assert steps[..|steps|] == steps;
    }
  }

  /** `now` is the clock when the step runs. */
  datatype ScenarioStep = ScenarioStep(key: string, set_: Mutations, now: string)

  function ScenarioOps(steps: seq<ScenarioStep>): seq<Op> {
    if steps == [] then []
    else
      var before, last := ScenarioOps(steps[..|steps| - 1]), steps[|steps| - 1];
      if Empty(last.set_) then before else before + [Op.Apply(last.key, last.set_, last.now)]
  }

  function KindOf(node: Fields): string { if StringField(node, "__typename") == "PullRequest" then "PR" else "Issue" }

  function SubjectKind(subjectType: string): string {
    if subjectType == "PullRequest" then "PR" else if subjectType == "Issue" then "Issue" else ""
  }

  function LowerChar(c: char): char { if 'A' <= c <= 'Z' then c - 'A' + 'a' else c }

  function Lower(s: string): string { seq(|s|, i requires 0 <= i < |s| => LowerChar(s[i])) }

  // ---- Histories of the list ----

  datatype Snapshot = Snapshot(overlays: Overlays, observed: Observed)

  predicate Listed(before: Observed, after: Observed, key: string, item: Item) {
    key in before && after == before[key := item]
  }

  ghost predicate Added(s: Snapshot, after: Observed, key: string, item: Item, kept: Observed) {
    key !in s.observed && Evicts(s.observed, s.overlays, kept) && after == kept[key := item]
  }

  /** One call: an overlay change, a sighting of a listed item, or a sighting of a new one after eviction. */
  ghost predicate Moves(s: Snapshot, t: Snapshot) {
    || t.observed == s.observed
    || (t.overlays == s.overlays && exists key, item :: Listed(s.observed, t.observed, key, item))
    || (t.overlays == s.overlays && exists key, item, kept :: Added(s, t.observed, key, item, kept))
  }

  ghost predicate History(h: seq<Snapshot>) { forall i :: 0 <= i < |h| - 1 ==> Moves(h[i], h[i + 1]) }

  /** An item on the list stays on it for as long as it keeps an overlay, whatever else is seen. */
  lemma {:induction false} ProtectedStays(h: seq<Snapshot>, key: string, i: nat)
    requires History(h) && i < |h| && key in h[0].observed
    requires forall j :: 0 <= j <= i ==> key in h[j].overlays
    ensures key in h[i].observed
  {
    if i > 0 {
      ProtectedStays(h, key, i - 1);
      assert Moves(h[i - 1], h[i]);
    }
  }

  /** A new sighting leaves at most the cap, or a list whose every other item is overlaid. */
  lemma {:induction false} ListIsBounded(s: Snapshot, after: Observed, key: string, item: Item, kept: Observed)
    requires Added(s, after, key, item, kept)
    ensures |after| <= 500 || forall k :: k in after && k != key ==> k in s.overlays
  {
  }

  lemma NothingToEvict(observed: Observed, ov: Overlays)
    requires |observed| < MAX_OBSERVED
    ensures Evicts(observed, ov, observed)
  {
  }

  /** Deleting candidates from the front until the list is below the cap is an eviction. */
  lemma {:induction false} OldestGo(before: Observed, ov: Overlays, after: Observed, candidates: seq<Aged>, n: nat)
    requires n <= |candidates| && OldestFirst(candidates)
    requires forall k :: (k in before && k !in ov) <==> exists i :: 0 <= i < |candidates| && candidates[i].key == k
    requires forall i :: 0 <= i < |candidates| ==>
               candidates[i].key in before && candidates[i].seen == before[candidates[i].key].lastSeen
    requires forall k :: k in after <==> k in before && forall j :: 0 <= j < n ==> candidates[j].key != k
    requires forall k :: k in after ==> after[k] == before[k]
    requires |before| >= MAX_OBSERVED && (n == 0 ==> after == before) && (n > 0 ==> |after| >= MAX_OBSERVED - 1)
    requires |after| < MAX_OBSERVED || n == |candidates|
    ensures Evicts(before, ov, after)
  {
  }
}
