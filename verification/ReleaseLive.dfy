/** What holds around a completed publish: the live check passes, and the next version always can be published. */
module ReleaseLive {
  import opened Text
  import opened Versions
  import opened NextVersions
  import opened Release
  import opened ReleaseSafety
  import opened ReleaseRuns
  import opened ReleaseCascade
  import opened Publishers

  // ---- verifyLive ----

  /** The stored file a manifest URL addresses. */
  function Download(env: Environment, objects: map<string, string>, url: string): Option<string> {
    var root := env.base + "/";
    if HasPrefix(url, root) && url[|root|..] in objects then Some(objects[url[|root|..]]) else None
  }

  /** Some stored object lies where the URL points, with this checksum and size. */
  ghost predicate Downloads(env: Environment, objects: map<string, string>, url: string, sha256: string, size: int) {
    exists key :: key in objects && url == env.base + "/" + key && env.digest(objects[key]) == sha256
        && |objects[key]| == size
  }

  /** `verifyLiveArtifact`. */
  predicate LiveFile(env: Environment, b: Bucket, url: string, sha256: string, size: int) {
    match Download(env, b.objects, url)
    case None => false
    case Some(body) => env.digest(body) == sha256 && |body| == size
  }

  predicate LivePlatform(env: Environment, b: Bucket, p: Platform) {
    LiveFile(env, b, p.url, p.sha256, p.size)
    && (p.installerUrl != "" ==> LiveFile(env, b, p.installerUrl, p.installerSha256, p.installerSize))
  }

  predicate LivePointer(env: Environment, b: Bucket, v: Version, c: Channel) {
    c in b.manifests && ValidManifest(env, c, b.manifests[c]) && b.manifests[c].version == VersionString(v)
  }

  function PlatformsAt(b: Bucket, c: Channel): map<string, Platform> {
    if c in b.manifests then b.manifests[c].platforms else map[]
  }

  /** Every affected channel names the release, all with the same platforms, and every file downloads as described. */
  predicate Live(env: Environment, b: Bucket, v: Version) {
    && (forall c :: c in Affected(v) ==> LivePointer(env, b, v, c))
    && (forall c :: c in Affected(v) ==> PlatformsAt(b, c) == PlatformsAt(b, Dev))
    && forall k :: k in PlatformsAt(b, Dev) ==> LivePlatform(env, b, PlatformsAt(b, Dev)[k])
  }

  ghost predicate PlatformDownloads(env: Environment, objects: map<string, string>, p: Platform) {
    && Downloads(env, objects, p.url, p.sha256, p.size)
    && (p.installerUrl != "" ==> Downloads(env, objects, p.installerUrl, p.installerSha256, p.installerSize))
  }

  /** What the live check is for, in terms of the bucket alone. */
  ghost predicate AsPublished(env: Environment, b: Bucket, v: Version) {
    forall c :: Rank(c) <= Rank(v.channel) ==>
      && c in b.manifests && Dev in b.manifests
      && b.manifests[c].channel == ChannelName(c) && b.manifests[c].version == VersionString(v)
      && ValidManifest(env, c, b.manifests[c]) && b.manifests[c].platforms == b.manifests[Dev].platforms
      && forall k :: k in b.manifests[c].platforms ==> PlatformDownloads(env, b.objects, b.manifests[c].platforms[k])
  }

  lemma LiveFileDownloads(env: Environment, b: Bucket, url: string, sha256: string, size: int)
    ensures LiveFile(env, b, url, sha256, size) <==> Downloads(env, b.objects, url, sha256, size)
  {
    var root := env.base + "/";
    if LiveFile(env, b, url, sha256, size) {
      assert url == root + url[|root|..];
    }
    if Downloads(env, b.objects, url, sha256, size) {
      var key :| key in b.objects && url == root + key && env.digest(b.objects[key]) == sha256
          && |b.objects[key]| == size;
      assert url[|root|..] == key;
    }
  }

  lemma LivePlatformDownloads(env: Environment, b: Bucket, p: Platform)
    ensures LivePlatform(env, b, p) <==> PlatformDownloads(env, b.objects, p)
  {
    hide LiveFile, Downloads;
    LiveFileDownloads(env, b, p.url, p.sha256, p.size);
    LiveFileDownloads(env, b, p.installerUrl, p.installerSha256, p.installerSize);
  }

  lemma LiveIsAsPublished(env: Environment, b: Bucket, v: Version)
    ensures Live(env, b, v) <==> AsPublished(env, b, v)
  {
    hide LivePlatform, PlatformDownloads, ValidManifest, VersionString;
    forall p ensures LivePlatform(env, b, p) <==> PlatformDownloads(env, b.objects, p) {
      LivePlatformDownloads(env, b, p);
    }
    assert Rank(Dev) <= Rank(v.channel) && Dev in Affected(v);
    ValidNamesChannel(env);
  }

  lemma ValidNamesChannel(env: Environment)
    ensures forall c, m :: ValidManifest(env, c, m) ==> m.channel == ChannelName(c)
  {
  }

  /** `verifyLive`: the channels in turn against the last platform set seen, then every platform's files. */
  method VerifyLive(env: Environment, remote: Remote, v: Version) returns (ok: bool)
    ensures ok <==> Live(env, remote.State(), v)
    ensures ok <==> AsPublished(env, remote.State(), v)
  {
    hide LivePointer, LivePlatform, AsPublished;
    var b := remote.State();
    LiveIsAsPublished(env, b, v);
    var channels := Affected(v);
    assert Dev in channels;
    var platforms: Option<map<string, Platform>> := None;
    for i := 0 to |channels|
      invariant i == 0 <==> platforms.None?
      invariant forall j :: 0 <= j < i ==> channels[j] in b.manifests && LivePointer(env, b, v, channels[j])
      invariant forall j :: 0 <= j < i ==> platforms == Some(b.manifests[channels[j]].platforms)
    {
      var c := channels[i];
      assert c in channels;
      if !LivePointer(env, b, v, c) { return false; }
      assert c in b.manifests by { PointerExists(env, b, v, c); }
      if platforms.Some? && platforms.value != b.manifests[c].platforms {
        assert channels[i - 1] in channels;
        return false;
      }
      platforms := Some(b.manifests[c].platforms);
    }
    var left := platforms.value.Keys;
    while left != {}
      invariant left <= platforms.value.Keys
      invariant forall k :: k in platforms.value && k !in left ==> LivePlatform(env, b, platforms.value[k])
      decreases left
    {
      var k :| k in left;
      if !LivePlatform(env, b, platforms.value[k]) { return false; }
      left := left - {k};
    }
    ok := true;
  }

  lemma PointerExists(env: Environment, b: Bucket, v: Version, c: Channel)
    requires LivePointer(env, b, v, c)
    ensures c in b.manifests
  {
  }

  lemma {:induction false} StoredIsLive(env: Environment, b: Bucket, v: Version, url: string, sha256: string, size: int)
    requires FileStored(env, b.objects, v, url, sha256, size)
    ensures LiveFile(env, b, url, sha256, size)
  {
  }

  lemma {:induction false} CompletedPlatforms(env: Environment, b: Bucket, r: Request, c: Channel)
    requires Sound(env, b) && WellFormed(r.version) && PlanRun(env, b, r).error.None? && c in Affected(r.version)
    ensures var after := Execute(b, PlanRun(env, b, r).writes);
            Built(r.version, r.disk) && c in after.manifests && after.manifests[c].platforms == PlatformsFor(env, r)
  {
    hide PlanRun, Parse, VersionString, Sound, PlatformsFor, Artifacts, GoodArtifacts, Execute, Built;
    var pending, cs := PlanSummary(env, b, r);
    UnpublishedIsOlder(env, b, r, c);
    PutsStore(b, pending);
    PointersAfter(Execute(b, Puts(pending)), r, cs, r.notes.value, PlatformsFor(env, r));
    ExecuteConcat(b, Puts(pending), Moves(env, r, cs));
  }

  /** After a publish or resume that completes, the live check passes. */
  lemma {:induction false} CompletedRunIsLive(env: Environment, b: Bucket, r: Request)
    requires Sound(env, b) && WellFormed(r.version) && PlanRun(env, b, r).error.None?
    ensures Live(env, Execute(b, PlanRun(env, b, r).writes), r.version)
  {
    hide PlanRun, Parse, VersionString, Execute, PlatformsFor, ValidManifest, FileStored, LiveFile, Artifacts;
    var ws, v := PlanRun(env, b, r).writes, r.version;
    var after := Execute(b, ws);
    EveryPutKeepsSound(env, b, r, |ws|);
    assert ws[..|ws|] == ws;
    forall c | c in Affected(v)
      ensures Built(v, r.disk) && LivePointer(env, after, v, c) && PlatformsAt(after, c) == PlatformsFor(env, r)
    {
      CompletedPointers(env, b, r, c);
      CompletedPlatforms(env, b, r, c);
    }
    assert Dev in Affected(v);
    CompletedPointers(env, b, r, Dev);
    var m := after.manifests[Dev];
    assert PointerSound(env, after.objects, Dev, m);
    forall k | k in m.platforms ensures LivePlatform(env, after, m.platforms[k]) {
      var p := m.platforms[k];
      assert PlatformStored(env, after.objects, v, p);
      StoredIsLive(env, after, v, p.url, p.sha256, p.size);
      if p.installerUrl != "" {
        StoredIsLive(env, after, v, p.installerUrl, p.installerSha256, p.installerSize);
      }
    }
  }

  // ---- The next version is publishable ----

  ghost predicate Tagged(tags: seq<string>, v: Version) {
    exists t :: t in tags && TrimSpace(t) != "" && Parse(TrimSpace(t)) == Some(v)
  }

  ghost predicate Pointed(manifests: Manifests, v: Version) {
    exists c :: c in manifests && Parse(manifests[c].version) == Some(v)
  }

  /** Every release tag and every channel pointer names a version. */
  predicate AllParse(tags: seq<string>, manifests: Manifests) {
    && (forall t :: t in tags && TrimSpace(t) != "" ==> Parse(TrimSpace(t)).Some?)
    && forall c :: c in manifests ==> Parse(manifests[c].version).Some?
  }

  /** The loop of `releaseTagVersions`. */
  method TagVersions(tags: seq<string>) returns (r: Option<seq<Version>>)
    ensures r.Some? <==> AllParse(tags, map[])
    ensures r.Some? ==> AllWellFormed(r.value) && forall v :: v in r.value <==> Tagged(tags, v)
  {
    hide Parse, TrimSpace, WellFormed;
    var versions: seq<Version> := [];
    for i := 0 to |tags|
      invariant AllWellFormed(versions)
      invariant AllParse(tags[..i], map[]) && forall v :: v in versions <==> Tagged(tags[..i], v)
    {
      var tag := TrimSpace(tags[i]);
      assert forall t :: t in tags[..i + 1] <==> t in tags[..i] || t == tags[i];
      if tag != "" {
        var version := Parse(tag);
        if version.None? {
          assert tags[i] in tags;
          return None;
        }
        ParsedIsWellFormed(tag);
        versions := versions + [version.value];
      }
    }
    assert tags[..|tags|] == tags;
    r := Some(versions);
  }

  /** `releaseVersions`: the versions of all release tags and of all channel pointers, and no others. */
  method ReleaseVersions(tags: seq<string>, manifests: Manifests) returns (r: Option<seq<Version>>)
    ensures r.Some? <==> AllParse(tags, manifests)
    ensures r.Some? ==> AllWellFormed(r.value) && forall v :: v in r.value <==> Tagged(tags, v) || Pointed(manifests, v)
  {
    hide Parse, TrimSpace, WellFormed, Tagged;
    r := TagVersions(tags);
    if r.None? { return None; }
    var versions := r.value;
    var left := manifests.Keys;
    while left != {}
      invariant AllWellFormed(versions) && left <= manifests.Keys
      invariant forall c :: c in manifests && c !in left ==> Parse(manifests[c].version).Some?
      invariant forall v :: v in versions <==> Tagged(tags, v) || PointedOutside(manifests, left, v)
      decreases left
    {
      var c :| c in left;
      var version := Parse(manifests[c].version);
      if version.None? { return None; }
      ParsedIsWellFormed(manifests[c].version);
      versions := versions + [version.value];
      left := left - {c};
    }
    r := Some(versions);
  }

  ghost predicate PointedOutside(manifests: Manifests, left: set<Channel>, v: Version) {
    exists c :: c in manifests && c !in left && Parse(manifests[c].version) == Some(v)
  }

  /** A version above every tag and pointer passes the advancement check and is not the name of an existing tag. */
  lemma {:induction false} AboveAllAdvances(v: Version, vs: seq<Version>, manifests: Manifests)
    requires WellFormed(v) && AllWellFormed(vs) && AboveAll(v, vs)
    requires forall c :: c in manifests ==> Parse(manifests[c].version).Some? && VersionOf(manifests[c]) in vs
    ensures Advances(v, manifests)
    ensures forall w :: w in vs ==> VersionString(v) != VersionString(w)
  {
    hide Parse, VersionString;
    forall c | c in Affected(v) && c in manifests ensures Compare(v, VersionOf(manifests[c])) > 0 {
      PromotionOrderIsTotal(v, VersionOf(manifests[c]), v);
    }
    forall w | w in vs ensures VersionString(v) != VersionString(w) {
      if VersionString(v) == VersionString(w) {
        VersionStringIsInjective(v, w);
        PromotionOrderIsTotal(v, w, v);
      }
    }
  }

  /** A release of either kind: a tag or a channel pointer names it. */
  ghost predicate Released(tags: seq<string>, manifests: Manifests, v: Version) {
    Tagged(tags, v) || Pointed(manifests, v)
  }

  ghost predicate HighestReleased(tags: seq<string>, manifests: Manifests, top: Version) {
    Released(tags, manifests, top) && forall w :: Released(tags, manifests, w) ==> Compare(w, top) <= 0
  }

  /** The highest release, if there is one, leaves `c` room above it. */
  ghost predicate RoomAbove(c: Channel, tags: seq<string>, manifests: Manifests) {
    forall top :: HighestReleased(tags, manifests, top) ==> Headroom(c, top)
  }

  /**
   * `planRelease` without a candidate: choose a version and check it. It succeeds exactly when every tag and pointer
   * names a version and the highest leaves room, so the checks on channel and advancement never refuse what was
   * chosen. The version is on the channel, above everything released, passes the advancement check and is not an
   * existing tag.
   */
  method ProposeVersion(c: Channel, tags: seq<string>, manifests: Manifests) returns (r: Option<Version>)
    ensures r.Some? <==> AllParse(tags, manifests) && RoomAbove(c, tags, manifests)
    ensures r.Some? ==> WellFormed(r.value) && r.value.channel == c && Advances(r.value, manifests)
    ensures r.Some? ==> forall w :: Released(tags, manifests, w) ==> Below(w, r.value)
    ensures r.Some? ==> forall t :: t in tags ==> TrimSpace(t) != TAG_PREFIX + VersionString(r.value)
  {
    hide Parse, TrimSpace, WellFormed, Tagged, Pointed, VersionString, Headroom, HeadroomAbove, LeastAbove;
    var versions := ReleaseVersions(tags, manifests);
    if versions.None? { return None; }
    var vs := versions.value;
    var s := NextVersion(c, vs);
    SameRoom(c, vs, tags, manifests);
    var version := ParsePublish(s);
    if |vs| == 0 {
      FirstVersionParses(c);
    } else if Parse(s).Some? {
      ChosenParses(c, vs, s);
    }
    if version.None? { return None; }
    var v := version.value;
    PointersAreReleased(vs, tags, manifests);
    AboveAllAdvances(v, vs, manifests);
    NotATag(v, vs, tags);
    if v.channel != c || !Advances(v, manifests) { return None; }
    r := Some(v);
  }

  lemma SameRoom(c: Channel, vs: seq<Version>, tags: seq<string>, manifests: Manifests)
    requires forall v :: v in vs <==> Released(tags, manifests, v)
    ensures HeadroomAbove(c, vs) <==> RoomAbove(c, tags, manifests)
    ensures |vs| == 0 ==> RoomAbove(c, tags, manifests)
  {
    hide Headroom, Compare, Released;
    forall top ensures IsTop(vs, top) <==> HighestReleased(tags, manifests, top) {
      if top in vs && HighestReleased(tags, manifests, top) {
        assert forall i :: 0 <= i < |vs| ==> vs[i] in vs;
      }
    }
  }

  lemma FirstVersionParses(c: Channel)
    ensures var v := Version(Base(0, 1, 0), c, if c.Stable? then 0 else 1);
            WellFormed(v) && ParsePublish(VersionString(v)) == Some(v)
  {
    hide Parse, VersionString, TrimSpace;
    var v := Version(Base(0, 1, 0), c, if c.Stable? then 0 else 1);
    ParsePrinted(v);
    VersionStringIsTight(v);
  }

  lemma ChosenParses(c: Channel, vs: seq<Version>, s: string)
    requires Parse(s).Some? && LeastAbove(c, vs, Parse(s).value) && s == VersionString(Parse(s).value)
    ensures ParsePublish(s) == Parse(s) && WellFormed(Parse(s).value) && Parse(s).value.channel == c
              && AboveAll(Parse(s).value, vs)
  {
    hide Parse, VersionString, TrimSpace;
    VersionStringIsTight(Parse(s).value);
    TrimSpaceKeeps(s);
  }

  lemma PointersAreReleased(vs: seq<Version>, tags: seq<string>, manifests: Manifests)
    requires AllParse(tags, manifests) && forall v :: v in vs <==> Released(tags, manifests, v)
    ensures forall c :: c in manifests ==> VersionOf(manifests[c]) in vs
  {
    hide Parse, TrimSpace, Tagged;
    forall c | c in manifests ensures VersionOf(manifests[c]) in vs {
      assert Pointed(manifests, VersionOf(manifests[c]));
    }
  }

  lemma NotATag(v: Version, vs: seq<Version>, tags: seq<string>)
    requires WellFormed(v) && forall w :: Tagged(tags, w) ==> w in vs
    requires forall w :: w in vs ==> VersionString(v) != VersionString(w)
    ensures forall t :: t in tags ==> TrimSpace(t) != TAG_PREFIX + VersionString(v)
  {
    hide Parse, VersionString, TrimSpace;
    forall t | t in tags ensures TrimSpace(t) != TAG_PREFIX + VersionString(v) {
      if TrimSpace(t) == TAG_PREFIX + VersionString(v) {
        TagParses(v, t);
      }
    }
  }

  lemma TagParses(v: Version, t: string)
    requires WellFormed(v) && TrimSpace(t) == TAG_PREFIX + VersionString(v)
    ensures TrimSpace(t) != "" && Parse(TrimSpace(t)) == Some(v)
  {
    hide Parse, VersionString, TrimSpace;
    assert "" + ((if true then TAG_PREFIX else "") + VersionString(v)) + "" == TrimSpace(t);
    PrintThenParse(v, true, "", "", TrimSpace(t));
  }

  // ---- Exactly when a run succeeds ----

  lemma {:induction false} PendingSucceeds(
    env: Environment, stored: map<string, string>, objects: seq<Object>, mode: Mode
  )
    ensures Pending(env, stored, objects, mode).Ok? <==>
              forall i :: 0 <= i < |objects| ==> Decide(env, stored, objects[i], mode).Ok?
  {
    hide Decide;
    if objects != [] {
      var n := |objects| - 1;
      PendingSucceeds(env, stored, objects[..n], mode);
      assert forall i :: 0 <= i < n ==> objects[..n][i] == objects[i];
    }
  }

  predicate Ready(env: Environment, b: Bucket, r: Request) {
    r.gates && Readable(env, b.manifests) && Intact(r) && r.notes.Some?
    && GoodArtifacts(env, r.version, Artifacts(env, r.version, r.disk))
  }

  /**
   * A fresh publish completes exactly when it is ready, advances every affected pointer, and overwrites nothing or is
   * forced.
   */
  lemma {:induction false} FreshSucceedsExactly(env: Environment, b: Bucket, r: Request)
    requires r.mode.Fresh? && WellFormed(r.version)
    ensures PlanRun(env, b, r).error.None? <==>
              && Ready(env, b, r) && Advances(r.version, b.manifests)
              && (r.mode.force || forall i :: 0 <= i < 5 ==> Key(r.version, UploadName(r.version, i)) !in b.objects)
  {
    hide Parse, VersionString, Artifacts, GoodArtifacts, Readable, Advances, Pending, Key;
    if Built(r.version, r.disk) {
      UploadKeys(env, r);
      PendingSucceeds(env, b.objects, UploadList(env, r), r.mode);
    }
  }

  /**
   * A resume completes exactly when it is ready, no affected pointer is newer or another release, and every stored
   * object is its own.
   */
  lemma {:induction false} ResumeSucceedsExactly(env: Environment, b: Bucket, r: Request)
    requires r.mode.Resume? && WellFormed(r.version)
    ensures PlanRun(env, b, r).error.None? <==>
              && Ready(env, b, r)
              && (forall c :: c in Affected(r.version) ==>
                    ResumeVerdict(r.version, c, b.manifests, r.notes.value, PlatformsFor(env, r)).None?)
              && forall o :: o in UploadList(env, r) && o.key in b.objects ==> SameFile(env, b.objects[o.key], o.body)
  {
    hide Parse, VersionString, Artifacts, GoodArtifacts, Readable, Pending, Key, ResumeVerdict, FirstVerdict;
    if Ready(env, b, r) {
      PendingSucceeds(env, b.objects, UploadList(env, r), Resume);
      VerdictsAgree(r.version, Affected(r.version), b.manifests, r.notes.value, PlatformsFor(env, r));
    }
  }

  lemma {:induction false} VerdictsAgree(
    v: Version, cs: seq<Channel>, ms: Manifests, notes: Notes, platforms: map<string, Platform>
  )
    ensures FirstVerdict(v, cs, ms, notes, platforms).None? <==>
              forall c :: c in cs ==> ResumeVerdict(v, c, ms, notes, platforms).None?
    decreases |cs|
  {
    hide ResumeVerdict;
    if cs != [] {
      VerdictsAgree(v, cs[1..], ms, notes, platforms);
      assert forall c :: c in cs <==> c == cs[0] || c in cs[1..];
    }
  }
}
