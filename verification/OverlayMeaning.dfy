/** What an overlay makes a client see: in a search, in a state lookup and in the inbox. */
module OverlayMeaning {
  import opened Text
  import opened Overlay
  import opened Stores

  // ---- Which item a piece of a response is ----

  /** A GraphQL node of item `repo#num`. */
  predicate NamesItem(node: Fields, repo: string, num: int) {
    && "repository" in node && node["repository"].Obj?
    && "nameWithOwner" in node["repository"].fields && node["repository"].fields["nameWithOwner"] == Str(repo)
    && "number" in node && node["number"] == Num(num as real)
  }

  lemma {:induction false} NodeIsKeyed(node: Fields, repo: string, num: int)
    requires NamesItem(node, repo, num)
    ensures KeyOf(node) == repo + "#" + PrintInt(num)
  {
    hide PrintInt;
    assert (-(num as real)).Floor == -num && (num as real).Floor == num;
  }

  // ---- One node under an overlay ----

  function Given<T>(set_: Option<T>, render: T -> Json, was: Option<Json>): Option<Json> {
    if set_.Some? then Some(render(set_.value)) else was
  }

  predicate LabelsRead(labels: Json, names: seq<string>) {
    && labels.Obj? && "nodes" in labels.fields && labels.fields["nodes"].Arr?
    && |labels.fields["nodes"].items| == |names|
    && forall i :: 0 <= i < |names| ==> labels.fields["nodes"].items[i] == Obj(map["name" := Str(names[i])])
  }

  predicate Capitals(s: string, t: string) {
    |s| == |t| && forall i :: 0 <= i < |s| ==>
                     if 'a' <= t[i] <= 'z' then s[i] as int == t[i] as int - 32 else s[i] == t[i]
  }

  /** The node with the overlay's state in capitals, title, body, draft flag, labels and time, where it sets them. */
  predicate Shows(out: Fields, node: Fields, m: Mutations) {
    && (m.state.None? ==> FieldOf(out, "state") == FieldOf(node, "state"))
    && (m.state.Some? ==>
          var state := FieldOf(out, "state");
          state.Some? && state.value.Str? && Capitals(state.value.text, m.state.value))
    && FieldOf(out, "title") == Given(m.title, (s: string) => Str(s), FieldOf(node, "title"))
    && FieldOf(out, "body") == Given(m.body, (s: string) => Str(s), FieldOf(node, "body"))
    && FieldOf(out, "isDraft") == Given(m.draft, (b: bool) => Bool(b), FieldOf(node, "isDraft"))
    && (m.labels.None? ==> FieldOf(out, "labels") == FieldOf(node, "labels"))
    && (m.labels.Some? ==>
          FieldOf(out, "labels").Some? && LabelsRead(FieldOf(out, "labels").value, m.labels.value))
    && FieldOf(out, "updatedAt") == Given(m.updatedAt, (s: string) => Str(s), FieldOf(node, "updatedAt"))
    && FieldOf(out, "repository") == FieldOf(node, "repository") && FieldOf(out, "number") == FieldOf(node, "number")
  }

  lemma UpperIsCapitals(s: string)
    ensures Capitals(Upper(s), s)
  {
  }

  lemma LabelsAreRead(names: seq<string>)
    ensures LabelsRead(LabelConnection(names), names)
  {
  }

  lemma {:induction false} ApplyShows(node: Fields, m: Mutations)
    ensures Shows(ApplyNode(node, m), node, m)
  {
    hide FieldOf, ApplyNode, Upper, LabelConnection, Capitals, LabelsRead;
    KeysDiffer();
    if m.state.Some? {
      UpperIsCapitals(m.state.value);
    }
    if m.labels.Some? {
      LabelsAreRead(m.labels.value);
    }
    forall key ensures FieldOf(ApplyNode(node, m), key) == Override(FieldOf(node, key), Rendered(m, key)) {
      ApplyNodeField(node, m, key);
    }
  }

  lemma {:induction false} ApplyKeepsRest(node: Fields, m: Mutations, key: string)
    requires key !in {"state", "title", "body", "isDraft", "labels", "updatedAt"}
    ensures FieldOf(ApplyNode(node, m), key) == FieldOf(node, key)
  {
    hide FieldOf, ApplyNode, Upper, LabelConnection;
    ApplyNodeField(node, m, key);
  }

  lemma {:induction false} OverlaidNode(ov: Overlays, node: Fields, repo: string, num: int)
    requires NamesItem(node, repo, num) && repo + "#" + PrintInt(num) in ov
    ensures var m := ov[repo + "#" + PrintInt(num)];
            && (IsAbsent(ov, Obj(node)) <==> m.absent == Some(true))
            && OverlayOf(ov, node) == Some(m)
            && RenderNode(ov, Obj(node)) == Obj(ApplyNode(node, m))
  {
    hide PrintInt, ApplyNode;
    NodeIsKeyed(node, repo, num);
  }

  // ---- Searches ----

  lemma {:induction false} NoAbsentLeft(ov: Overlays, nodes: seq<Json>)
    ensures forall n :: n in RewriteNodes(ov, nodes) ==> !IsAbsent(ov, n)
  {
    hide RenderNode, IsAbsent;
    if nodes != [] {
      NoAbsentLeft(ov, nodes[..|nodes| - 1]);
      RenderNodeTwice(ov, nodes[|nodes| - 1]);
    }
  }

  /** A search at `data[k]`, with its nodes. */
  predicate HasSearch(payload: Json, k: string, nodes: seq<Json>) {
    && payload.Obj? && "data" in payload.fields && payload.fields["data"].Obj?
    && k in payload.fields["data"].fields && payload.fields["data"].fields[k].Obj?
    && var result := payload.fields["data"].fields[k].fields;
    && "nodes" in result && result["nodes"] == Arr(nodes)
    && !("issueOrPullRequest" in result && result["issueOrPullRequest"].Obj?)
  }

  /** Everything else of the response is as it was. */
  predicate RestKept(before: Json, after: Json, k: string, field: string)
    requires before.Obj? && "data" in before.fields && before.fields["data"].Obj?
    requires after.Obj? && "data" in after.fields && after.fields["data"].Obj?
    requires k in before.fields["data"].fields && before.fields["data"].fields[k].Obj?
    requires k in after.fields["data"].fields && after.fields["data"].fields[k].Obj?
  {
    && after.fields - {"data"} == before.fields - {"data"}
    && after.fields["data"].fields.Keys == before.fields["data"].fields.Keys
    && after.fields["data"].fields[k].fields - {field} == before.fields["data"].fields[k].fields - {field}
  }

  lemma {:induction false} SearchIsRewritten(ov: Overlays, payload: Json, k: string, nodes: seq<Json>)
    requires HasSearch(payload, k, nodes)
    ensures HasSearch(RewriteGraphQL(ov, payload), k, RewriteNodes(ov, nodes))
    ensures RestKept(payload, RewriteGraphQL(ov, payload), k, "nodes")
  {
    hide RewriteNodes;
    ShapesDiffer();
    var result := payload.fields["data"].fields[k].fields;
    var after := RewriteGraphQL(ov, payload).fields["data"].fields[k].fields;
    assert after == result["nodes" := Arr(RewriteNodes(ov, nodes))];
  }

  lemma ShapesDiffer()
    ensures "nodes" != "issueOrPullRequest"
  {
    assert |"nodes"| != |"issueOrPullRequest"|;
  }

  /**
   * An item with an overlay is in the rewritten search as the overlay shows it, after as many nodes as were kept before
   * it; one marked absent is nowhere in it.
   */
  lemma {:induction false} SearchShowsOverlay(
    ov: Overlays, payload: Json, k: string, nodes: seq<Json>, i: nat, repo: string, num: int
  ) returns (kept: seq<Json>)
    requires HasSearch(payload, k, nodes) && i < |nodes| && nodes[i].Obj? && NamesItem(nodes[i].fields, repo, num)
    requires repo + "#" + PrintInt(num) in ov
    ensures HasSearch(RewriteGraphQL(ov, payload), k, kept) && |kept| <= |nodes|
    ensures var m := ov[repo + "#" + PrintInt(num)];
            if m.absent == Some(true) then
              |kept| < |nodes| && forall n :: n in kept && n.Obj? ==> !NamesItem(n.fields, repo, num)
            else
              exists j :: 0 <= j < |kept| && j <= i && kept[j].Obj? && Shows(kept[j].fields, nodes[i].fields, m)
  {
    hide PrintInt, IsAbsent, RenderNode, ApplyNode, HasSearch, Shows;
    kept := RewriteNodes(ov, nodes);
    SearchIsRewritten(ov, payload, k, nodes);
    OverlaidNode(ov, nodes[i].fields, repo, num);
    SearchKeepsTheRest(ov, nodes, i);
    KeptAtMost(ov, nodes);
    var m := ov[repo + "#" + PrintInt(num)];
    assert Obj(nodes[i].fields) == nodes[i];
    if m.absent == Some(true) {
      NoAbsentLeft(ov, nodes);
      KeptLess(ov, nodes, i);
      forall n | n in kept && n.Obj? ensures !NamesItem(n.fields, repo, num) {
        assert Obj(n.fields) == n;
        if NamesItem(n.fields, repo, num) {
          OverlaidNode(ov, n.fields, repo, num);
        }
      }
    } else {
      KeptAtMost(ov, nodes[..i]);
      ApplyShows(nodes[i].fields, m);
    }
  }

  lemma {:induction false} KeptAtMost(ov: Overlays, nodes: seq<Json>)
    ensures Kept(ov, nodes) <= |nodes|
  {
    hide IsAbsent;
    if nodes != [] {
      KeptAtMost(ov, nodes[..|nodes| - 1]);
    }
  }

  lemma {:induction false} KeptLess(ov: Overlays, nodes: seq<Json>, i: nat)
    requires i < |nodes| && IsAbsent(ov, nodes[i])
    ensures Kept(ov, nodes) < |nodes|
  {
    hide IsAbsent;
    var n := |nodes| - 1;
    KeptAtMost(ov, nodes[..n]);
    if i < n {
      KeptLess(ov, nodes[..n], i);
    }
  }

  // ---- State lookups ----

  /** A state lookup at `data[k]` that found this node. */
  predicate HasLookup(payload: Json, k: string, node: Fields) {
    && payload.Obj? && "data" in payload.fields && payload.fields["data"].Obj?
    && k in payload.fields["data"].fields && payload.fields["data"].fields[k].Obj?
    && var result := payload.fields["data"].fields[k].fields;
    && "issueOrPullRequest" in result && result["issueOrPullRequest"] == Obj(node)
  }

  /** The state lookup of an overlaid item answers with the overlay, absent or not. */
  lemma {:induction false} LookupShowsOverlay(
    ov: Overlays, payload: Json, k: string, node: Fields, repo: string, num: int
  ) returns (shown: Fields)
    requires HasLookup(payload, k, node) && NamesItem(node, repo, num) && repo + "#" + PrintInt(num) in ov
    ensures HasLookup(RewriteGraphQL(ov, payload), k, shown) && Shows(shown, node, ov[repo + "#" + PrintInt(num)])
    ensures RestKept(payload, RewriteGraphQL(ov, payload), k, "issueOrPullRequest")
  {
    hide PrintInt, ApplyNode, Shows, OverlayOf, RenderNode;
    var m := ov[repo + "#" + PrintInt(num)];
    shown := ApplyNode(node, m);
    OverlaidNode(ov, node, repo, num);
    ApplyShows(node, m);
    ShapesDiffer();
    var result := payload.fields["data"].fields[k].fields;
    var after := RewriteGraphQL(ov, payload).fields["data"].fields[k].fields;
    assert after == result["issueOrPullRequest" := Obj(shown)];
  }

  // ---- The inbox ----

  lemma {:induction false} LastSlash(a: string, b: string)
    requires '/' !in b
    ensures LastIndex(a + "/" + b, '/') == |a|
  {
    var s := a + "/" + b;
    assert s[|a|] == '/' && forall j :: |a| < j < |s| ==> s[j] == b[j - |a| - 1];
  }

  /** An API URL names an item by its last part if the part before it is a collection of items, and else none. */
  lemma {:induction false} UrlNumber(prefix: string, collection: string, n: nat)
    requires '/' !in collection && n <= MAX_INT
    ensures NumberFromApiUrl(prefix + "/" + collection + "/" + Decimal(n)) ==
              if collection == "issues" || collection == "pulls" then n else 0
  {
    hide Decimal, NumberOf;
    var digits := Decimal(n);
    var path := prefix + "/" + collection;
    var url := path + "/" + digits;
    NumberOfDecimal(n);
    assert '/' !in digits && digits[0] != '+' by {
      assert forall i :: 0 <= i < |digits| ==> IsDigit(digits[i]);
    }
    LastSlash(path, digits);
    LastSlash(prefix, collection);
    assert url[..|path|] == path && url[|path| + 1..] == digits && path[|prefix| + 1..] == collection;
  }

  /** An inbox entry about item `repo#num`. */
  ghost predicate EntryNames(entry: Fields, repo: string, num: nat) {
    && "repository" in entry && entry["repository"].Obj?
    && "full_name" in entry["repository"].fields && entry["repository"].fields["full_name"] == Str(repo)
    && "subject" in entry && entry["subject"].Obj? && "url" in entry["subject"].fields
    && exists prefix: string, collection ::
         && (collection == "issues" || collection == "pulls")
         && entry["subject"].fields["url"] == Str(prefix + "/" + collection + "/" + Decimal(num))
  }

  lemma {:induction false} EntryIsKeyed(entry: Fields, repo: string, num: nat)
    requires EntryNames(entry, repo, num) && num <= MAX_INT
    ensures NotificationKey(entry) == repo + "#" + PrintInt(num)
  {
    hide NumberFromApiUrl, PrintInt, Decimal;
    var prefix: string, collection :|
      (collection == "issues" || collection == "pulls")
      && entry["subject"].fields["url"] == Str(prefix + "/" + collection + "/" + Decimal(num));
    assert '/' !in "issues" && '/' !in "pulls";
    UrlNumber(prefix, collection, num);
  }

  /** The entry of an overlaid item: its reason unread, the title inside its subject, and the time. */
  lemma {:induction false} InboxShowsOverlay(ov: Overlays, payload: Json, i: nat, repo: string, num: nat)
    requires payload.Arr? && i < |payload.items| && num <= MAX_INT
    requires forall j :: 0 <= j < |payload.items| ==> payload.items[j].Obj? || payload.items[j].Null?
    requires payload.items[i].Obj? && EntryNames(payload.items[i].fields, repo, num) && repo + "#" + PrintInt(num) in ov
    ensures var m := ov[repo + "#" + PrintInt(num)];
            var entry, after := payload.items[i].fields, RewriteNotifications(ov, payload);
            && after.Arr? && |after.items| == |payload.items| && after.items[i].Obj?
            && var shown := after.items[i].fields;
            && FieldOf(shown, "reason") == Given(m.reason, (s: string) => Str(s), FieldOf(entry, "reason"))
            && FieldOf(shown, "unread") == Given(m.reason, (s: string) => Bool(true), FieldOf(entry, "unread"))
            && FieldOf(shown, "updated_at") == Given(m.updatedAt, (s: string) => Str(s), FieldOf(entry, "updated_at"))
            && FieldOf(shown, "repository") == FieldOf(entry, "repository")
            && "subject" in shown && shown["subject"].Obj?
            && shown["subject"].fields - {"title"} == entry["subject"].fields - {"title"}
            && FieldOf(shown["subject"].fields, "title")
            == Given(m.title, (s: string) => Str(s), FieldOf(entry["subject"].fields, "title"))
  {
    hide ApplyNotification, NotificationKey, PrintInt, EntryNames;
    var entry := payload.items[i].fields;
    var m := ov[repo + "#" + PrintInt(num)];
    EntryIsKeyed(entry, repo, num);
    EntryHasSubject(entry, repo, num);
    NotificationKeysDiffer();
    forall key ensures FieldOf(ApplyNotification(entry, m), key) ==
              if key == "subject" then (if key in entry then Some(WithTitle(entry[key], m.title)) else None)
              else if key == "reason" && m.reason.Some? then Some(Str(m.reason.value))
              else if key == "unread" && m.reason.Some? then Some(Bool(true))
              else if key == "updated_at" && m.updatedAt.Some? then Some(Str(m.updatedAt.value))
              else FieldOf(entry, key) {
      NotificationField(entry, m, key);
    }
    var shown := RewriteNotifications(ov, payload).items[i].fields;
    assert shown == ApplyNotification(entry, m);
    assert FieldOf(shown, "subject") == Some(WithTitle(entry["subject"], m.title));
  }

  lemma EntryHasSubject(entry: Fields, repo: string, num: nat)
    requires EntryNames(entry, repo, num)
    ensures "subject" in entry && entry["subject"].Obj?
  {
  }

  // ---- Accumulated overlays ----

  /** The last value set, if any is. */
  ghost predicate IsLatest<T(!new)>(settings: seq<Option<T>>, value: Option<T>) {
    if value.None? then forall i :: 0 <= i < |settings| ==> settings[i].None?
    else exists i :: 0 <= i < |settings| && settings[i] == value && forall j :: i < j < |settings| ==> settings[j].None?
  }

  lemma LatestOfOneMore<T(!new)>(settings: seq<Option<T>>, value: Option<T>, next: Option<T>)
    requires IsLatest(settings, value)
    ensures IsLatest(settings + [next], if next.Some? then next else value)
  {
    var all := settings + [next];
    if next.Some? {
      assert all[|settings|] == next;
    } else if value.Some? {
      var i :| 0 <= i < |settings| && settings[i] == value && forall j :: i < j < |settings| ==> settings[j].None?;
      assert all[i] == value;
    }
  }

  function Settings<T>(ms: seq<Mutations>, field: Mutations -> Option<T>): seq<Option<T>> {
    seq(|ms|, i requires 0 <= i < |ms| => field(ms[i]))
  }

  lemma {:induction false} LatestField<T(!new)>(ms: seq<Mutations>, field: Mutations -> Option<T>)
    requires field(NOTHING).None?
    requires forall a, b :: field(Merge(a, b)) == if field(b).Some? then field(b) else field(a)
    ensures IsLatest(Settings(ms, field), field(MergeAll(ms)))
  {
    hide Merge, IsLatest;
    if ms == [] {
      LatestOfNone(Settings(ms, field), field(NOTHING));
    } else {
      var n := |ms| - 1;
      LatestField(ms[..n], field);
      assert Settings(ms, field) == Settings(ms[..n], field) + [field(ms[n])];
      LatestOfOneMore(Settings(ms[..n], field), field(MergeAll(ms[..n])), field(ms[n]));
    }
  }

  lemma LatestOfNone<T(!new)>(settings: seq<Option<T>>, value: Option<T>)
    requires settings == [] && value.None?
    ensures IsLatest(settings, value)
  {
  }

  /** In an accumulated overlay every field has the value it was last set to. */
  lemma {:induction false} LastSettingWins(ms: seq<Mutations>)
    ensures var m := MergeAll(ms);
            && IsLatest(Settings(ms, (x: Mutations) => x.state), m.state)
            && IsLatest(Settings(ms, (x: Mutations) => x.labels), m.labels)
            && IsLatest(Settings(ms, (x: Mutations) => x.reason), m.reason)
            && IsLatest(Settings(ms, (x: Mutations) => x.title), m.title)
            && IsLatest(Settings(ms, (x: Mutations) => x.body), m.body)
            && IsLatest(Settings(ms, (x: Mutations) => x.draft), m.draft)
            && IsLatest(Settings(ms, (x: Mutations) => x.absent), m.absent)
            && IsLatest(Settings(ms, (x: Mutations) => x.updatedAt), m.updatedAt)
  {
    hide IsLatest, MergeAll;
    LatestField(ms, (x: Mutations) => x.state);
    LatestField(ms, (x: Mutations) => x.labels);
    LatestField(ms, (x: Mutations) => x.reason);
    LatestField(ms, (x: Mutations) => x.title);
    LatestField(ms, (x: Mutations) => x.body);
    LatestField(ms, (x: Mutations) => x.draft);
    LatestField(ms, (x: Mutations) => x.absent);
    LatestField(ms, (x: Mutations) => x.updatedAt);
  }

  // ---- Scenarios ----

  /** Steps that set something are applied one for one, and a step that sets nothing is as good as none. */
  lemma {:induction false} ScenarioApplies(steps: seq<ScenarioStep>)
    requires forall i :: 0 <= i < |steps| ==> steps[i].set_ != NOTHING
    ensures |ScenarioOps(steps)| == |steps|
    ensures forall i :: 0 <= i < |steps| ==>
              ScenarioOps(steps)[i] == Op.Apply(steps[i].key, steps[i].set_, steps[i].now)
  {
    if steps != [] {
      ScenarioApplies(steps[..|steps| - 1]);
    }
  }

  lemma {:induction false} ScenarioSkips(before: seq<ScenarioStep>, step: ScenarioStep, after: seq<ScenarioStep>)
    requires step.set_ == NOTHING
    ensures ScenarioOps(before + [step] + after) == ScenarioOps(before + after)
    decreases |after|
  {
    var all := before + [step] + after;
    if after == [] {
      assert all[..|all| - 1] == before && before + after == before;
    } else {
      var n := |after| - 1;
      ScenarioSkips(before, step, after[..n]);
      assert all[..|all| - 1] == before + [step] + after[..n];
      assert (before + after)[..|before| + n] == before + after[..n];
    }
  }
}
