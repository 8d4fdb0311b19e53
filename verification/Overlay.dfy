/** Overlays and the response shapes they rewrite (cmd/devserver/config.go, the rewriting half of overlay.go). */
module Overlay {
  import opened Text

  datatype Json =
    | Null
    | Bool(flag: bool)
    | Num(number: real)
    | Str(text: string)
    | Arr(items: seq<Json>)
    | Obj(fields: map<string, Json>)

  type Fields = map<string, Json>

  /** `Mutations`: every field the author set explicitly. `updatedAt` is the rendered RFC 3339 time. */
  datatype Mutations = Mutations(
    state: Option<string>, labels: Option<seq<string>>, reason: Option<string>, title: Option<string>,
    body: Option<string>, draft: Option<bool>, absent: Option<bool>, updatedAt: Option<string>)

  const NOTHING := Mutations(None, None, None, None, None, None, None, None)

  /** `Mutations.Empty`. */
  predicate Empty(m: Mutations) { m == NOTHING }

  function Override<T>(old_: Option<T>, next: Option<T>): Option<T> { if next.Some? then next else old_ }

  /** `Mutations.Merge`. */
  function Merge(m: Mutations, next: Mutations): Mutations {
    Mutations(Override(m.state, next.state), Override(m.labels, next.labels), Override(m.reason, next.reason),
              Override(m.title, next.title), Override(m.body, next.body), Override(m.draft, next.draft),
              Override(m.absent, next.absent), Override(m.updatedAt, next.updatedAt))
  }

  /** Merging is associative, with the empty overlay as identity on both sides. */
  lemma MergeIsMonoid(a: Mutations, b: Mutations, c: Mutations)
    ensures Merge(Merge(a, b), c) == Merge(a, Merge(b, c))
    ensures Merge(NOTHING, a) == a && Merge(a, NOTHING) == a
    ensures Merge(a, a) == a
  {
  }

  // ---- Rendering an overlay onto one item ----

  function UpperChar(c: char): char { if 'a' <= c <= 'z' then c - 'a' + 'A' else c }

  function Upper(s: string): (u: string)
    ensures |u| == |s|
  {
    seq(|s|, i requires 0 <= i < |s| => UpperChar(s[i]))
  }

  function Set<T>(node: Fields, key: string, value: Option<T>, render: T -> Json): Fields {
    if value.Some? then node[key := render(value.value)] else node
  }

  function LabelNode(name: string): Json { Obj(map["name" := Str(name)]) }

  function LabelConnection(names: seq<string>): Json {
    Obj(map["nodes" := Arr(seq(|names|, i requires 0 <= i < |names| => LabelNode(names[i])))])
  }

  /** `applyGraphQLNode`. */
  function ApplyNode(node: Fields, m: Mutations): Fields {
    var n1 := Set(node, "state", m.state, (s: string) => Str(Upper(s)));
    var n2 := Set(n1, "title", m.title, (s: string) => Str(s));
    var n3 := Set(n2, "body", m.body, (s: string) => Str(s));
    var n4 := Set(n3, "isDraft", m.draft, (b: bool) => Bool(b));
    var n5 := Set(n4, "labels", m.labels, (names: seq<string>) => LabelConnection(names));
    Set(n5, "updatedAt", m.updatedAt, (s: string) => Str(s))
  }

  /** The value an overlay gives a field of a node, if it sets it. */
  function Rendered(m: Mutations, key: string): Option<Json> {
    if key == "state" && m.state.Some? then Some(Str(Upper(m.state.value)))
    else if key == "title" && m.title.Some? then Some(Str(m.title.value))
    else if key == "body" && m.body.Some? then Some(Str(m.body.value))
    else if key == "isDraft" && m.draft.Some? then Some(Bool(m.draft.value))
    else if key == "labels" && m.labels.Some? then Some(LabelConnection(m.labels.value))
    else if key == "updatedAt" && m.updatedAt.Some? then Some(Str(m.updatedAt.value))
    else None
  }

  function FieldOf(node: Fields, key: string): Option<Json> { if key in node then Some(node[key]) else None }

  /** Field by field: what the overlay sets, otherwise what was there. */
  lemma {:induction false} ApplyNodeField(node: Fields, m: Mutations, key: string)
    ensures FieldOf(ApplyNode(node, m), key) == Override(FieldOf(node, key), Rendered(m, key))
  {
    hide Upper, LabelConnection;
    KeysDiffer();
  }

  /** The six field names are different words. */
  lemma KeysDiffer()
    ensures var k := ["state", "title", "body", "isDraft", "labels", "updatedAt"];
            forall i, j :: 0 <= i < j < 6 ==> k[i] != k[j]
    ensures forall k :: k in ["state", "title", "body", "isDraft", "labels", "updatedAt"] ==>
              k != "repository" && k != "number" && k != "__typename"
  {
  }

  lemma SameFields(a: Fields, b: Fields)
    requires forall key :: FieldOf(a, key) == FieldOf(b, key)
    ensures a == b
  {
    assert forall key :: key in a <==> key in b by {
      forall key ensures key in a <==> key in b {
        assert FieldOf(a, key) == FieldOf(b, key);
      }
    }
    assert forall key :: key in a ==> a[key] == b[key] by {
      forall key | key in a ensures a[key] == b[key] {
        assert FieldOf(a, key) == FieldOf(b, key);
      }
    }
  }

  /** Applying two overlays in turn is applying their merge. */
  lemma {:induction false} ApplyNodeMerges(node: Fields, a: Mutations, b: Mutations)
    ensures ApplyNode(ApplyNode(node, a), b) == ApplyNode(node, Merge(a, b))
  {
    hide ApplyNode, Upper, LabelConnection;
    var once, merged := ApplyNode(ApplyNode(node, a), b), ApplyNode(node, Merge(a, b));
    forall key ensures FieldOf(once, key) == FieldOf(merged, key) {
      ApplyNodeField(node, a, key);
      ApplyNodeField(ApplyNode(node, a), b, key);
      ApplyNodeField(node, Merge(a, b), key);
    }
    SameFields(once, merged);
  }

  function MergeAll(ms: seq<Mutations>): Mutations {
    if ms == [] then NOTHING else Merge(MergeAll(ms[..|ms| - 1]), ms[|ms| - 1])
  }

  function ApplyAll(node: Fields, ms: seq<Mutations>): Fields {
    if ms == [] then node else ApplyNode(ApplyAll(node, ms[..|ms| - 1]), ms[|ms| - 1])
  }

  lemma {:induction false} ApplyNothing(node: Fields)
    ensures ApplyNode(node, NOTHING) == node
  {
  }

  /** One overlay accumulated from many renders an item as if each mutation had been applied in order. */
  lemma {:induction false} MergedRendersInOrder(node: Fields, ms: seq<Mutations>)
    ensures ApplyNode(node, MergeAll(ms)) == ApplyAll(node, ms)
  {
    hide ApplyNode;
    if ms == [] {
      ApplyNothing(node);
    } else {
      MergedRendersInOrder(node, ms[..|ms| - 1]);
      ApplyNodeMerges(node, MergeAll(ms[..|ms| - 1]), ms[|ms| - 1]);
    }
  }

  // ---- GraphQL responses ----

  type Overlays = map<string, Mutations>

  /** Go's float-to-int conversion. */
  function Truncate(x: real): int { if x >= 0.0 then x.Floor else -((-x).Floor) }

  function StringField(node: Fields, key: string): string {
    if key in node && node[key].Str? then node[key].text else ""
  }

  /** `graphQLIdentity`, as the key an overlay is stored under. */
  function Identity(node: Fields): (string, int) {
    (if "repository" in node && node["repository"].Obj? then StringField(node["repository"].fields, "nameWithOwner")
        else "",
     if "number" in node && node["number"].Num? then Truncate(node["number"].number) else 0)
  }

  function ItemKey(repo: string, num: int): string { repo + "#" + PrintInt(num) }

  function KeyOf(node: Fields): string { ItemKey(Identity(node).0, Identity(node).1) }

  function OverlayOf(ov: Overlays, node: Fields): Option<Mutations> {
    if KeyOf(node) in ov then Some(ov[KeyOf(node)]) else None
  }

  function RewriteNode(ov: Overlays, node: Fields): Fields {
    if OverlayOf(ov, node).Some? then ApplyNode(node, OverlayOf(ov, node).value) else node
  }

  predicate IsAbsent(ov: Overlays, n: Json) {
    n.Obj? && OverlayOf(ov, n.fields).Some? && OverlayOf(ov, n.fields).value.absent == Some(true)
  }

  function RenderNode(ov: Overlays, n: Json): Json { if n.Obj? then Obj(RewriteNode(ov, n.fields)) else n }

  /** The search nodes that stay, rendered. */
  function RewriteNodes(ov: Overlays, nodes: seq<Json>): seq<Json> {
    if nodes == [] then []
    else
      var before, last := RewriteNodes(ov, nodes[..|nodes| - 1]), nodes[|nodes| - 1];
      if IsAbsent(ov, last) then before else before + [RenderNode(ov, last)]
  }

  const ALIAS := "issueOrPullRequest"
  const NODES := "nodes"
  const DATA := "data"

  predicate HasAlias(result: Fields) { ALIAS in result && result[ALIAS].Obj? }

  /** `rewriteItemAlias` would change this state lookup. */
  predicate AliasOverlaid(ov: Overlays, result: Fields) {
    HasAlias(result) && OverlayOf(ov, result[ALIAS].fields).Some?
  }

  /** One aliased top-level value: a state lookup if it has an overlay, else a search. */
  function RewriteResult(ov: Overlays, result: Fields): Fields {
    if AliasOverlaid(ov, result) then result[ALIAS := RenderNode(ov, result[ALIAS])]
    else if NODES in result && result[NODES].Arr? then result[NODES := Arr(RewriteNodes(ov, result[NODES].items))]
    else result
  }

  function RewriteValue(ov: Overlays, v: Json): Json { if v.Obj? then Obj(RewriteResult(ov, v.fields)) else v }

  function RewriteData(ov: Overlays, data: Fields): Fields { map k | k in data :: RewriteValue(ov, data[k]) }

  /** `RewriteGraphQL` on a decoded body. */
  function RewriteGraphQL(ov: Overlays, payload: Json): Json {
    if payload.Obj? && DATA in payload.fields && payload.fields[DATA].Obj?
    then Obj(payload.fields[DATA := Obj(RewriteData(ov, payload.fields[DATA].fields))])
    else payload
  }

  lemma {:induction false} IdentityIsKept(node: Fields, m: Mutations)
    ensures KeyOf(ApplyNode(node, m)) == KeyOf(node)
  {
    hide ApplyNode, ItemKey, Upper, LabelConnection;
    KeysDiffer();
    ApplyNodeField(node, m, "repository");
    ApplyNodeField(node, m, "number");
  }

  lemma {:induction false} RewriteNodeTwice(ov: Overlays, node: Fields)
    ensures RewriteNode(ov, RewriteNode(ov, node)) == RewriteNode(ov, node)
    ensures OverlayOf(ov, RewriteNode(ov, node)) == OverlayOf(ov, node)
  {
    hide ApplyNode, KeyOf;
    if OverlayOf(ov, node).Some? {
      var m := OverlayOf(ov, node).value;
      IdentityIsKept(node, m);
      ApplyNodeMerges(node, m, m);
      MergeIsMonoid(m, m, m);
    }
  }

  lemma {:induction false} RenderNodeTwice(ov: Overlays, n: Json)
    ensures RenderNode(ov, RenderNode(ov, n)) == RenderNode(ov, n)
    ensures IsAbsent(ov, RenderNode(ov, n)) == IsAbsent(ov, n)
  {
    hide RewriteNode, OverlayOf;
    if n.Obj? {
      RewriteNodeTwice(ov, n.fields);
    }
  }

  lemma {:induction false} RewriteNodesTwice(ov: Overlays, nodes: seq<Json>)
    ensures RewriteNodes(ov, RewriteNodes(ov, nodes)) == RewriteNodes(ov, nodes)
  {
    hide RenderNode, IsAbsent;
    if nodes != [] {
      var before, last := RewriteNodes(ov, nodes[..|nodes| - 1]), nodes[|nodes| - 1];
      RewriteNodesTwice(ov, nodes[..|nodes| - 1]);
      RenderNodeTwice(ov, last);
      var all := before + [RenderNode(ov, last)];
      assert all[..|all| - 1] == before;
    }
  }

  lemma {:induction false} RewriteResultTwice(ov: Overlays, result: Fields)
    ensures RewriteResult(ov, RewriteResult(ov, result)) == RewriteResult(ov, result)
  {
    hide RewriteNodes, OverlayOf, RewriteNode;
    assert ALIAS != NODES by { assert |ALIAS| == 18 && |NODES| == 5; }
    if AliasOverlaid(ov, result) {
      RewriteNodeTwice(ov, result[ALIAS].fields);
    } else if NODES in result && result[NODES].Arr? {
      RewriteNodesTwice(ov, result[NODES].items);
    }
  }

  /** Rewriting a response a second time with the same overlays changes nothing. */
  lemma {:induction false} RewriteGraphQLTwice(ov: Overlays, payload: Json)
    ensures RewriteGraphQL(ov, RewriteGraphQL(ov, payload)) == RewriteGraphQL(ov, payload)
  {
    hide RewriteResult;
    if payload.Obj? && DATA in payload.fields && payload.fields[DATA].Obj? {
      var data := payload.fields[DATA].fields;
      forall k | k in data ensures RewriteValue(ov, RewriteValue(ov, data[k])) == RewriteValue(ov, data[k]) {
        if data[k].Obj? {
          RewriteResultTwice(ov, data[k].fields);
        }
      }
      assert RewriteData(ov, RewriteData(ov, data)) == RewriteData(ov, data);
    }
  }

  /** How many of the nodes stay. */
  function Kept(ov: Overlays, nodes: seq<Json>): nat {
    if nodes == [] then 0 else Kept(ov, nodes[..|nodes| - 1]) + (if IsAbsent(ov, nodes[|nodes| - 1]) then 0 else 1)
  }

  /** Exactly the nodes not marked absent stay, in their order, and one without an overlay is left as it came. */
  lemma {:induction false} SearchKeepsTheRest(ov: Overlays, nodes: seq<Json>, i: nat)
    requires i < |nodes|
    ensures |RewriteNodes(ov, nodes)| == Kept(ov, nodes)
    ensures !IsAbsent(ov, nodes[i]) ==>
              && Kept(ov, nodes[..i]) < Kept(ov, nodes)
              && RewriteNodes(ov, nodes)[Kept(ov, nodes[..i])] == RenderNode(ov, nodes[i])
    ensures nodes[i].Obj? && OverlayOf(ov, nodes[i].fields).None? ==> RenderNode(ov, nodes[i]) == nodes[i]
  {
    hide RenderNode, IsAbsent;
    var n := |nodes| - 1;
    KeptIsLength(ov, nodes[..n]);
    if i < n {
      SearchKeepsTheRest(ov, nodes[..n], i);
      assert nodes[..n][..i] == nodes[..i];
    }
    UntouchedNode(ov, nodes[i]);
  }

  lemma {:induction false} KeptIsLength(ov: Overlays, nodes: seq<Json>)
    ensures |RewriteNodes(ov, nodes)| == Kept(ov, nodes)
  {
    if nodes != [] {
      KeptIsLength(ov, nodes[..|nodes| - 1]);
    }
  }

  lemma UntouchedNode(ov: Overlays, n: Json)
    ensures n.Obj? && OverlayOf(ov, n.fields).None? ==> RenderNode(ov, n) == n
  {
  }

  /** A simulated item drops out of every search, and the state lookup still answers with the simulated state. */
  lemma {:induction false} AbsentItemIsStillAnswered(ov: Overlays, node: Fields, result: Fields, state: string)
    requires HasAlias(result) && result[ALIAS].fields == node && OverlayOf(ov, node).Some?
    requires OverlayOf(ov, node).value.absent == Some(true) && OverlayOf(ov, node).value.state == Some(state)
    ensures IsAbsent(ov, Obj(node))
    ensures var answer := RewriteResult(ov, result);
            HasAlias(answer) && FieldOf(answer[ALIAS].fields, "state") == Some(Str(Upper(state)))
  {
  }

  // ---- REST notifications ----

  /** What `RewriteNotifications` does to one entry that has an overlay. */
  function ApplyNotification(entry: Fields, m: Mutations): Fields {
    var e1 := if m.reason.Some? then entry["reason" := Str(m.reason.value)]["unread" := Bool(true)] else entry;
    var e2 := if m.title.Some? && "subject" in e1 && e1["subject"].Obj?
              then e1["subject" := Obj(e1["subject"].fields["title" := Str(m.title.value)])] else e1;
    if m.updatedAt.Some? then e2["updated_at" := Str(m.updatedAt.value)] else e2
  }

  lemma NotificationKeysDiffer()
    ensures var k := ["reason", "unread", "subject", "updated_at"]; forall i, j :: 0 <= i < j < 4 ==> k[i] != k[j]
    ensures forall k :: k in ["reason", "unread", "subject", "updated_at"] ==> k != "repository"
    ensures "title" != "url"
  {
  }

  function WithTitle(subject: Json, title: Option<string>): Json {
    if subject.Obj? && title.Some? then Obj(subject.fields["title" := Str(title.value)]) else subject
  }

  lemma {:induction false} NotificationField(entry: Fields, m: Mutations, key: string)
    ensures FieldOf(ApplyNotification(entry, m), key) ==
              if key == "subject" then (if key in entry then Some(WithTitle(entry[key], m.title)) else None)
              else if key == "reason" && m.reason.Some? then Some(Str(m.reason.value))
              else if key == "unread" && m.reason.Some? then Some(Bool(true))
              else if key == "updated_at" && m.updatedAt.Some? then Some(Str(m.updatedAt.value))
              else FieldOf(entry, key)
  {
  }

  lemma WithTitles(subject: Json, a: Option<string>, b: Option<string>)
    ensures WithTitle(WithTitle(subject, a), b) == WithTitle(subject, Override(a, b))
  {
  }

  /** The notification shape obeys the same merge law, so the three shapes cannot drift apart. */
  lemma {:induction false} ApplyNotificationMerges(entry: Fields, a: Mutations, b: Mutations)
    ensures ApplyNotification(ApplyNotification(entry, a), b) == ApplyNotification(entry, Merge(a, b))
  {
    hide ApplyNotification, WithTitle;
    var left, right := ApplyNotification(ApplyNotification(entry, a), b), ApplyNotification(entry, Merge(a, b));
    forall key ensures FieldOf(left, key) == FieldOf(right, key) {
      NotificationField(entry, a, key);
      NotificationField(ApplyNotification(entry, a), b, key);
      NotificationField(entry, Merge(a, b), key);
      if key == "subject" && key in entry {
        WithTitles(entry[key], a.title, b.title);
      }
    }
    SameFields(left, right);
  }

  /** The position of the last `c`, or -1. */
  function LastIndex(s: string, c: char): (i: int)
    ensures -1 <= i < |s| && (i >= 0 ==> s[i] == c) && forall j :: i < j < |s| ==> s[j] != c
  {
    if s == "" then -1 else if s[|s| - 1] == c then |s| - 1 else LastIndex(s[..|s| - 1], c)
  }

  /** `numberFromAPIURL`; `strconv.Atoi` takes a leading plus, and a minus gives no positive number. */
  function NumberFromApiUrl(url: string): nat {
    var slash := LastIndex(url, '/');
    if slash < 0 then 0
    else
      var path := url[..slash];
      var collection := path[LastIndex(path, '/') + 1..];
      if collection != "issues" && collection != "pulls" then 0
      else
        var tail := url[slash + 1..];
        var digits := if tail != "" && tail[0] == '+' then tail[1..] else tail;
        if digits == "" || !AllDigits(digits) then 0
        else match Atoi(digits) case None => 0 case Some(n) => n
  }

  function SubjectOf(entry: Fields): Fields {
    if "subject" in entry && entry["subject"].Obj? then entry["subject"].fields else map[]
  }

  function RepoOf(entry: Fields): string {
    if "repository" in entry && entry["repository"].Obj? then StringField(entry["repository"].fields, "full_name")
    else ""
  }

  function NotificationKey(entry: Fields): string {
    ItemKey(RepoOf(entry), NumberFromApiUrl(StringField(SubjectOf(entry), "url")))
  }

  function RewriteEntry(ov: Overlays, entry: Fields): Fields {
    if NotificationKey(entry) in ov then ApplyNotification(entry, ov[NotificationKey(entry)]) else entry
  }

  /** What decodes into a list of objects; a null element decodes to an empty one and is written back as it was. */
  predicate AllObjects(items: seq<Json>) { forall i :: 0 <= i < |items| ==> items[i].Obj? || items[i].Null? }

  function RewriteItem(ov: Overlays, item: Json): Json {
    if item.Obj? then Obj(RewriteEntry(ov, item.fields)) else item
  }

  /** `RewriteNotifications` on a decoded body. */
  function RewriteNotifications(ov: Overlays, payload: Json): Json {
    if payload.Arr? && AllObjects(payload.items)
    then Arr(seq(|payload.items|, i requires 0 <= i < |payload.items| => RewriteItem(ov, payload.items[i])))
    else payload
  }

  lemma {:induction false} NotificationIdentityIsKept(entry: Fields, m: Mutations)
    ensures NotificationKey(ApplyNotification(entry, m)) == NotificationKey(entry)
  {
    hide NumberFromApiUrl, ItemKey;
    NotificationKeysDiffer();
    var after := ApplyNotification(entry, m);
    assert FieldOf(after, "repository") == FieldOf(entry, "repository");
    assert StringField(SubjectOf(after), "url") == StringField(SubjectOf(entry), "url");
  }

  lemma {:induction false} RewriteItemTwice(ov: Overlays, item: Json)
    ensures RewriteItem(ov, RewriteItem(ov, item)) == RewriteItem(ov, item)
  {
    hide ApplyNotification, NotificationKey;
    if item.Obj? && NotificationKey(item.fields) in ov {
      var m := ov[NotificationKey(item.fields)];
      NotificationIdentityIsKept(item.fields, m);
      ApplyNotificationMerges(item.fields, m, m);
      MergeIsMonoid(m, m, m);
    }
  }

  lemma {:induction false} RewriteNotificationsTwice(ov: Overlays, payload: Json)
    ensures RewriteNotifications(ov, RewriteNotifications(ov, payload)) == RewriteNotifications(ov, payload)
  {
    hide RewriteEntry;
    if payload.Arr? && AllObjects(payload.items) {
      forall i | 0 <= i < |payload.items|
        ensures RewriteItem(ov, RewriteItem(ov, payload.items[i])) == RewriteItem(ov, payload.items[i])
      {
        RewriteItemTwice(ov, payload.items[i]);
      }
      var once := RewriteNotifications(ov, payload);
      assert RewriteNotifications(ov, once).items == once.items;
    }
  }
}
