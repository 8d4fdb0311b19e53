/** Every state any series of release runs can reach keeps its channel pointers backed by stored files. */
module ReleaseSafety {
  import opened Text
  import opened Versions
  import opened Release

  // ---- Keys of different releases, and of different files, never coincide ----

  lemma {:induction false} VersionStringHasNoSlash(v: Version)
    requires WellFormed(v)
    ensures '/' !in VersionString(v)
  {
    var s := VersionString(v);
    var digits := [PrintInt(v.base.major), PrintInt(v.base.minor), PrintInt(v.base.patch), PrintInt(v.number)];
    assert forall d :: d in digits ==> AllDigits(d);
    assert '/' !in SuffixString(v.channel, digits[3]);
  }

  lemma {:induction false} KeysAreDistinct(v: Version, w: Version, n: string, m: string)
    requires WellFormed(v) && WellFormed(w) && Key(v, n) == Key(w, m)
    ensures v == w && n == m
  {
    hide VersionString;
    var root := "desktop/releases/";
    VersionStringHasNoSlash(v);
    VersionStringHasNoSlash(w);
    assert Key(v, n) == root + (VersionString(v) + ['/'] + n);
    assert Key(w, m) == root + (VersionString(w) + ['/'] + m);
    assert Key(v, n)[|root|..] == VersionString(v) + ['/'] + n;
    assert Key(w, m)[|root|..] == VersionString(w) + ['/'] + m;
    CutIsUnique(VersionString(v), VersionString(w), n, m, '/');
    VersionStringIsInjective(v, w);
  }

  lemma {:induction false} EndsWith(s: string, tail: string, i: nat)
    requires i < |tail|
    ensures (s + tail)[|s + tail| - 1 - i] == tail[|tail| - 1 - i]
  {
  }

  lemma {:induction false} TailsAreDistinct(stem: string)
    ensures var files := [stem + "-darwin-universal.zip", stem + "-darwin-universal.dmg",
                          stem + "-linux-amd64.tar.gz", stem + "-linux-arm64.tar.gz"];
            (forall i, j :: 0 <= i < j < 4 ==> files[i] != files[j]) && SUMS !in files
  {
    EndsWith(stem, "-darwin-universal.zip", 0);
    EndsWith(stem, "-darwin-universal.dmg", 0);
    EndsWith(stem, "-linux-amd64.tar.gz", 0);
    EndsWith(stem, "-linux-arm64.tar.gz", 0);
    EndsWith(stem, "-linux-amd64.tar.gz", 9);
    EndsWith(stem, "-linux-arm64.tar.gz", 9);
    assert SUMS[|SUMS| - 1] == 'S';
  }

  /** The names in one release prefix are pairwise distinct. */
  lemma {:induction false} NamesAreDistinct(v: Version)
    ensures forall i, j :: 0 <= i < j < 4 ==> ReleaseFiles(v)[i] != ReleaseFiles(v)[j]
    ensures SUMS !in ReleaseFiles(v)
  {
    hide VersionString;
    var stem := "Hive-" + VersionString(v);
    assert TarName(v, "amd64") == stem + "-linux-amd64.tar.gz";
    assert TarName(v, "arm64") == stem + "-linux-arm64.tar.gz";
    TailsAreDistinct(stem);
  }

  predicate DistinctKeys(objects: seq<Object>) {
    forall i, j :: 0 <= i < j < |objects| ==> objects[i].key != objects[j].key
  }

  function UploadList(env: Environment, r: Request): seq<Object>
    requires Built(r.version, r.disk)
  {
    ObjectsOf(r.version, Artifacts(env, r.version, r.disk), r.disk)
  }

  function UploadName(v: Version, i: nat): string
    requires i < 5
  {
    if i < 4 then ReleaseFiles(v)[i] else SUMS
  }

  lemma {:induction false} UploadKeys(env: Environment, r: Request)
    requires WellFormed(r.version) && Built(r.version, r.disk)
    ensures var objects := UploadList(env, r);
            && |objects| == 5 && DistinctKeys(objects)
            && forall i :: 0 <= i < 5 ==> objects[i].key == Key(r.version, UploadName(r.version, i))
  {
    var v, objects := r.version, UploadList(env, r);
    NamesAreDistinct(v);
    forall i, j | 0 <= i < j < 5 ensures objects[i].key != objects[j].key {
      if objects[i].key == objects[j].key {
        KeysAreDistinct(v, v, UploadName(v, i), UploadName(v, j));
      }
    }
  }

  // ---- Executing writes ----

  lemma ExecuteStep(b: Bucket, ws: seq<Write>, k: nat)
    requires k < |ws|
    ensures Execute(b, ws[..k + 1]) == Apply(Execute(b, ws[..k]), ws[k])
  {
    assert ws[..k + 1][..k] == ws[..k];
  }

  lemma {:induction false} ExecuteConcat(b: Bucket, x: seq<Write>, y: seq<Write>)
    ensures Execute(b, x + y) == Execute(Execute(b, x), y)
    decreases |y|
  {
    if y == [] {
      assert x + y == x;
    } else {
      assert (x + y)[..|x + y| - 1] == x + y[..|y| - 1];
      ExecuteConcat(b, x, y[..|y| - 1]);
    }
  }

  /** PUTs of distinct keys: each stored with its own body, everything else as it was. */
  lemma {:induction false} PutsStore(b: Bucket, objects: seq<Object>)
    requires DistinctKeys(objects)
    ensures var after := Execute(b, Puts(objects));
            && after.manifests == b.manifests
            && (forall o :: o in objects ==> o.key in after.objects && after.objects[o.key] == o.body)
            && (forall k :: k in after.objects <==> k in b.objects || exists o :: o in objects && o.key == k)
            && (forall k :: k in b.objects && (forall o :: o in objects ==> o.key != k) ==>
                 after.objects[k] == b.objects[k])
  {
    if objects != [] {
      var n := |objects| - 1;
      var before := objects[..n];
      assert Puts(objects)[..n] == Puts(before);
      PutsStore(b, before);
      assert objects == before + [objects[n]];
    }
  }

  // ---- What a run decides ----

  /** Only missing objects are uploaded, or any object under --force. */
  lemma {:induction false} PendingIsNew(env: Environment, stored: map<string, string>, objects: seq<Object>, mode: Mode)
    requires Pending(env, stored, objects, mode).Ok?
    ensures forall o :: o in Pending(env, stored, objects, mode).value ==>
              o in objects && (o.key !in stored || mode == Fresh(true))
  {
    if objects != [] {
      var before, last := objects[..|objects| - 1], objects[|objects| - 1];
      PendingIsNew(env, stored, before, mode);
      assert last in objects;
      assert forall o :: o in before ==> o in objects;
    }
  }

  /** What a resume does not upload is already stored, byte for byte as far as the digest tells. */
  lemma {:induction false} RestIsStored(
    env: Environment, stored: map<string, string>, objects: seq<Object>, mode: Mode, i: nat
  )
    requires Pending(env, stored, objects, mode).Ok? && i < |objects|
    ensures var o := objects[i];
            o in Pending(env, stored, objects, mode).value
            || (mode.Resume? && o.key in stored && SameFile(env, stored[o.key], o.body))
  {
    if i < |objects| - 1 {
      RestIsStored(env, stored, objects[..|objects| - 1], mode, i);
    }
  }

  lemma {:induction false} PendingIsDistinct(
    env: Environment, stored: map<string, string>, objects: seq<Object>, mode: Mode
  )
    requires Pending(env, stored, objects, mode).Ok? && DistinctKeys(objects)
    ensures DistinctKeys(Pending(env, stored, objects, mode).value)
  {
    if objects != [] {
      var before, last := objects[..|objects| - 1], objects[|objects| - 1];
      PendingIsDistinct(env, stored, before, mode);
      PendingIsNew(env, stored, before, mode);
      var p := Pending(env, stored, before, mode).value;
      forall i | 0 <= i < |p| ensures p[i].key != last.key {
        assert p[i] in before;
      }
    }
  }

  // ---- Soundness: pointers are backed by stored files ----

  /** Some file of release `v` is stored under the key this URL addresses, with this checksum and size. */
  ghost predicate FileStored(
    env: Environment, objects: map<string, string>, v: Version, url: string, sha256: string, size: int
  ) {
    exists name :: url == Url(env, v, name) && Key(v, name) in objects
                && env.digest(objects[Key(v, name)]) == sha256 && |objects[Key(v, name)]| == size
  }

  ghost predicate PlatformStored(env: Environment, objects: map<string, string>, v: Version, p: Platform) {
    && FileStored(env, objects, v, p.url, p.sha256, p.size)
    && (HasInstaller(p) ==> FileStored(env, objects, v, p.installerUrl, p.installerSha256, p.installerSize))
  }

  ghost predicate PlatformsStored(
    env: Environment, objects: map<string, string>, v: Version, platforms: map<string, Platform>
  ) {
    forall k :: k in platforms ==> PlatformStored(env, objects, v, platforms[k])
  }

  /** A pointer this tool wrote: readable, canonical, on a channel its version affects, and backed by stored files. */
  ghost predicate PointerSound(env: Environment, objects: map<string, string>, c: Channel, m: Manifest) {
    && ValidManifest(env, c, m) && WellFormed(VersionOf(m)) && m.version == VersionString(VersionOf(m))
    && c in Affected(VersionOf(m))
    && PlatformsStored(env, objects, VersionOf(m), m.platforms)
  }

  ghost predicate Sound(env: Environment, b: Bucket) {
    forall c :: c in b.manifests ==> PointerSound(env, b.objects, c, b.manifests[c])
  }

  /** No pointer names release `v`. */
  ghost predicate Unnamed(b: Bucket, v: Version) {
    forall c :: c in b.manifests && Parse(b.manifests[c].version).Some? ==> VersionOf(b.manifests[c]) != v
  }

  lemma {:induction false} FileStaysStored(
    env: Environment, objects: map<string, string>, v: Version, name: string, body: string,
    w: Version, url: string, sha256: string, size: int
  )
    requires WellFormed(v) && WellFormed(w)
    requires FileStored(env, objects, w, url, sha256, size)
    requires w != v || Key(v, name) !in objects
    ensures FileStored(env, objects[Key(v, name) := body], w, url, sha256, size)
  {
    var n :| url == Url(env, w, n) && Key(w, n) in objects
             && env.digest(objects[Key(w, n)]) == sha256 && |objects[Key(w, n)]| == size;
    if Key(w, n) == Key(v, name) {
      KeysAreDistinct(w, v, n, name);
    }
  }

  /** A PUT under release `v` harms no pointer if none names `v`, or if it overwrites nothing. */
  lemma {:induction false} PutKeepsSound(env: Environment, b: Bucket, v: Version, name: string, body: string)
    requires WellFormed(v) && Sound(env, b)
    requires Unnamed(b, v) || Key(v, name) !in b.objects
    ensures Sound(env, Apply(b, PutObject(Key(v, name), body)))
  {
    var after := b.objects[Key(v, name) := body];
    forall c | c in b.manifests ensures PointerSound(env, after, c, b.manifests[c]) {
      var m := b.manifests[c];
      var w := VersionOf(m);
      forall k | k in m.platforms ensures PlatformStored(env, after, w, m.platforms[k]) {
        var p := m.platforms[k];
        assert PlatformStored(env, b.objects, w, p);
        FileStaysStored(env, b.objects, v, name, body, w, p.url, p.sha256, p.size);
        if HasInstaller(p) {
          FileStaysStored(env, b.objects, v, name, body, w, p.installerUrl, p.installerSha256, p.installerSize);
        }
      }
    }
  }

  /**
   * A fresh run that passes the advancement check is about a release no pointer names: this is what makes --force
   * safe.
   */
  lemma {:induction false} AdvancingIsUnnamed(env: Environment, b: Bucket, v: Version)
    requires Sound(env, b) && Advances(v, b.manifests)
    ensures Unnamed(b, v)
  {
  }

  // ---- The platform entries name the artifacts ----

  ghost predicate ArtifactsStored(
    env: Environment, objects: map<string, string>, v: Version, artifacts: seq<Artifact>
  ) {
    forall a :: a in artifacts ==> FileStored(env, objects, v, Url(env, v, a.name), a.checksum, a.size)
  }

  ghost predicate EntryFromArtifacts(env: Environment, objects: map<string, string>, v: Version, p: Platform) {
    && (p.url == "" || FileStored(env, objects, v, p.url, p.sha256, p.size))
    && (!HasInstaller(p) || FileStored(env, objects, v, p.installerUrl, p.installerSha256, p.installerSize))
  }

  lemma {:induction false} EntriesFromArtifacts(
    env: Environment, objects: map<string, string>, v: Version, artifacts: seq<Artifact>
  )
    requires ArtifactsStored(env, objects, v, artifacts)
    ensures forall k :: EntryFromArtifacts(env, objects, v, Lookup(PlatformsOf(env, v, artifacts), k))
  {
    if artifacts != [] {
      var last := artifacts[|artifacts| - 1];
      assert last in artifacts;
      EntriesFromArtifacts(env, objects, v, artifacts[..|artifacts| - 1]);
      var before := PlatformsOf(env, v, artifacts[..|artifacts| - 1]);
      assert EntryFromArtifacts(env, objects, v, Lookup(before, last.platform));
      forall k ensures EntryFromArtifacts(env, objects, v, Lookup(PlatformsOf(env, v, artifacts), k)) {
        assert EntryFromArtifacts(env, objects, v, Lookup(before, k));
      }
    }
  }

  lemma {:induction false} PlatformsAreStored(
    env: Environment, objects: map<string, string>, v: Version, artifacts: seq<Artifact>
  )
    requires ArtifactsStored(env, objects, v, artifacts) && GoodArtifacts(env, v, artifacts)
    ensures PlatformsStored(env, objects, v, PlatformsOf(env, v, artifacts))
  {
    EntriesFromArtifacts(env, objects, v, artifacts);
    var platforms := PlatformsOf(env, v, artifacts);
    forall k | k in platforms ensures PlatformStored(env, objects, v, platforms[k]) {
      assert EntryFromArtifacts(env, objects, v, Lookup(platforms, k));
      assert ValidPlatform(env, platforms[k]);
    }
  }

  // ---- One run, stopped anywhere ----

  lemma {:induction false} PutsKeepSound(env: Environment, b: Bucket, v: Version, pending: seq<Object>)
    requires WellFormed(v) && Sound(env, b) && DistinctKeys(pending)
    requires forall o :: o in pending ==> exists name :: o.key == Key(v, name)
    requires Unnamed(b, v) || forall o :: o in pending ==> o.key !in b.objects
    ensures Sound(env, Execute(b, Puts(pending)))
  {
    hide VersionString, Key, Sound, VersionOf;
    if pending != [] {
      var n := |pending| - 1;
      var before, last := pending[..n], pending[n];
      PutsKeepSound(env, b, v, before);
      PutsStore(b, before);
      assert Puts(pending)[..n] == Puts(before);
      assert last in pending;
      var name :| last.key == Key(v, name);
      PutKeepsSound(env, Execute(b, Puts(before)), v, name, last.body);
    }
  }

  /** The run got past every check and every object is in place. */
  ghost predicate Staged(env: Environment, objects: map<string, string>, r: Request)
  {
    && Built(r.version, r.disk)
    && ArtifactsStored(env, objects, r.version, Artifacts(env, r.version, r.disk))
  }

  lemma {:induction false} ObjectIsStaged(env: Environment, b: Bucket, objects: seq<Object>, mode: Mode, i: nat)
    requires Pending(env, b.objects, objects, mode).Ok? && DistinctKeys(objects) && i < |objects|
    ensures var after := Execute(b, Puts(Pending(env, b.objects, objects, mode).value)).objects;
            objects[i].key in after && SameFile(env, after[objects[i].key], objects[i].body)
  {
    var pending, o := Pending(env, b.objects, objects, mode).value, objects[i];
    PendingIsDistinct(env, b.objects, objects, mode);
    PutsStore(b, pending);
    RestIsStored(env, b.objects, objects, mode, i);
    if o !in pending {
      PendingIsNew(env, b.objects, objects, mode);
      assert forall p :: p in pending ==> p.key != o.key;
    }
  }

  lemma {:induction false} PutsStage(env: Environment, b: Bucket, r: Request, pending: seq<Object>)
    requires WellFormed(r.version) && Built(r.version, r.disk)
    requires Pending(env, b.objects, UploadList(env, r), r.mode) == Ok(pending)
    ensures Staged(env, Execute(b, Puts(pending)).objects, r)
  {
    hide VersionString, Pending, Execute, Checksums, ReleaseFiles, Key, Url;
    var objects, v := UploadList(env, r), r.version;
    var after := Execute(b, Puts(pending)).objects;
    var artifacts := Artifacts(env, v, r.disk);
    UploadKeys(env, r);
    forall a | a in artifacts ensures FileStored(env, after, v, Url(env, v, a.name), a.checksum, a.size) {
      var i :| 0 <= i < 4 && artifacts[i] == a;
      ObjectIsStaged(env, b, objects, r.mode, i);
      assert objects[i] == Object(Key(v, a.name), r.disk[a.name]);
    }
  }

  lemma {:induction false} MacIsListed(env: Environment, v: Version, artifacts: seq<Artifact>, i: nat)
    requires i < |artifacts|
    ensures artifacts[i].platform in PlatformsOf(env, v, artifacts)
  {
    if i < |artifacts| - 1 {
      MacIsListed(env, v, artifacts[..|artifacts| - 1], i);
    }
  }

  /** The manifest metadata a run writes. */
  function PlatformsFor(env: Environment, r: Request): map<string, Platform>
    requires Built(r.version, r.disk)
  {
    PlatformsOf(env, r.version, Artifacts(env, r.version, r.disk))
  }

  ghost predicate Backed(env: Environment, objects: map<string, string>, v: Version, platforms: map<string, Platform>) {
    MAC in platforms && ValidPlatforms(env, platforms) && PlatformsStored(env, objects, v, platforms)
  }

  lemma {:induction false} StagedIsBacked(env: Environment, objects: map<string, string>, r: Request)
    requires Staged(env, objects, r) && GoodArtifacts(env, r.version, Artifacts(env, r.version, r.disk))
    ensures Backed(env, objects, r.version, PlatformsFor(env, r))
  {
    var artifacts := Artifacts(env, r.version, r.disk);
    PlatformsAreStored(env, objects, r.version, artifacts);
    MacIsListed(env, r.version, artifacts, 0);
    assert artifacts[0].platform == MAC;
  }

  lemma {:induction false} OwnPointerIsSound(env: Environment, objects: map<string, string>, r: Request, c: Channel,
                                             notes: Notes, platforms: map<string, Platform>)
    requires WellFormed(r.version) && Backed(env, objects, r.version, platforms) && c in Affected(r.version)
    ensures PointerSound(env, objects, c, ManifestFor(r, c, notes, platforms))
    ensures VersionOf(ManifestFor(r, c, notes, platforms)) == r.version
  {
    ParsePrinted(r.version);
    VersionStringIsTight(r.version);
  }

  lemma NoWrites(b: Bucket, r: Request, notes: Notes, platforms: map<string, Platform>)
    ensures Execute(b, ManifestWrites(r, [], notes, platforms)) == b
  {
  }

  lemma {:induction false} LastMove(
    b: Bucket, r: Request, cs: seq<Channel>, notes: Notes, platforms: map<string, Platform>
  )
    requires cs != []
    ensures var n := |cs| - 1;
            Execute(b, ManifestWrites(r, cs, notes, platforms))
            == Apply(Execute(b, ManifestWrites(r, cs[..n], notes, platforms)),
                PutManifest(cs[n], ManifestFor(r, cs[n], notes, platforms)))
  {
    hide ManifestFor, Apply;
    var n := |cs| - 1;
    assert ManifestWrites(r, cs, notes, platforms)[..n] == ManifestWrites(r, cs[..n], notes, platforms);
  }

  lemma {:induction false} ManifestsKeepSound(env: Environment, b: Bucket, r: Request, cs: seq<Channel>,
                                              notes: Notes, platforms: map<string, Platform>)
    requires WellFormed(r.version) && Sound(env, b) && Backed(env, b.objects, r.version, platforms)
    requires forall i :: 0 <= i < |cs| ==> cs[i] in Affected(r.version)
    ensures var after := Execute(b, ManifestWrites(r, cs, notes, platforms));
            Sound(env, after) && after.objects == b.objects
  {
    hide PointerSound, Backed, ManifestWrites, ManifestFor, Execute;
    NoWrites(b, r, notes, platforms);
    if cs != [] {
      var n := |cs| - 1;
      LastMove(b, r, cs, notes, platforms);
      ManifestsKeepSound(env, b, r, cs[..n], notes, platforms);
      OwnPointerIsSound(env, b.objects, r, cs[n], notes, platforms);
    }
  }

  /** How every plan that writes anything is made up. */
  lemma {:induction false} PlanShape(
    env: Environment, b: Bucket, r: Request
  ) returns (pending: seq<Object>, cs: seq<Channel>)
    requires PlanRun(env, b, r).writes != [] || PlanRun(env, b, r).error.None?
    ensures Readable(env, b.manifests) && Intact(r)
    ensures r.mode.Fresh? ==> Advances(r.version, b.manifests)
    ensures Pending(env, b.objects, UploadList(env, r), r.mode) == Ok(pending)
    ensures PlanRun(env, b, r).error.Some? ==> cs == [] && PlanRun(env, b, r).writes == Puts(pending)
    ensures PlanRun(env, b, r).error.None? ==>
              && r.notes.Some? && GoodArtifacts(env, r.version, Artifacts(env, r.version, r.disk))
              && cs == Unpublished(r, Affected(r.version), b.manifests)
              && PlanRun(env, b, r).writes == Puts(pending) + ManifestWrites(r, cs, r.notes.value, PlatformsFor(env, r))
    ensures PlanRun(env, b, r).error.None? && r.mode.Resume? ==>
              FirstVerdict(r.version, Affected(r.version), b.manifests, r.notes.value, PlatformsFor(env, r)).None?
    ensures forall i :: 0 <= i < |cs| ==> cs[i] in Affected(r.version)
  {
    var plan := PlanUpload(env, b, r);
    assert PlanRun(env, b, r) == plan;
    pending := Pending(env, b.objects, UploadList(env, r), r.mode).value;
    cs := if plan.error.None? then Unpublished(r, Affected(r.version), b.manifests) else [];
    assert forall i :: 0 <= i < |cs| ==> cs[i] in cs;
  }

  lemma {:induction false} PendingIsSafe(env: Environment, b: Bucket, r: Request, pending: seq<Object>)
    requires WellFormed(r.version) && Built(r.version, r.disk) && Sound(env, b)
    requires r.mode.Fresh? ==> Advances(r.version, b.manifests)
    requires Pending(env, b.objects, UploadList(env, r), r.mode) == Ok(pending)
    ensures DistinctKeys(pending)
    ensures forall o :: o in pending ==> exists name :: o.key == Key(r.version, name)
    ensures Unnamed(b, r.version) || forall o :: o in pending ==> o.key !in b.objects
  {
    hide VersionString, Pending, Artifacts, Checksums, ReleaseFiles, Key, ObjectsOf, Advances, Sound, Unnamed;
    UploadKeys(env, r);
    PendingIsNew(env, b.objects, UploadList(env, r), r.mode);
    PendingIsDistinct(env, b.objects, UploadList(env, r), r.mode);
    if r.mode.Fresh? {
      AdvancingIsUnnamed(env, b, r.version);
    }
    forall o | o in pending ensures exists name :: o.key == Key(r.version, name) {
      var i :| 0 <= i < 5 && UploadList(env, r)[i] == o;
      assert o.key == Key(r.version, UploadName(r.version, i));
    }
  }

  lemma {:induction false} ObjectPhase(env: Environment, b: Bucket, r: Request, pending: seq<Object>, k: nat)
    requires WellFormed(r.version) && Built(r.version, r.disk) && Sound(env, b) && k <= |pending|
    requires r.mode.Fresh? ==> Advances(r.version, b.manifests)
    requires Pending(env, b.objects, UploadList(env, r), r.mode) == Ok(pending)
    ensures Sound(env, Execute(b, Puts(pending)[..k]))
  {
    hide VersionString, Pending, Artifacts, Key, ObjectsOf, Advances, Sound, Unnamed, Execute;
    PendingIsSafe(env, b, r, pending);
    assert Puts(pending)[..k] == Puts(pending[..k]);
    PutsKeepSound(env, b, r.version, pending[..k]);
  }

  lemma {:induction false} PointerPhase(
    env: Environment, b: Bucket, r: Request, pending: seq<Object>, cs: seq<Channel>, notes: Notes
  )
    requires WellFormed(r.version) && Built(r.version, r.disk) && Sound(env, b)
    requires r.mode.Fresh? ==> Advances(r.version, b.manifests)
    requires Pending(env, b.objects, UploadList(env, r), r.mode) == Ok(pending)
    requires GoodArtifacts(env, r.version, Artifacts(env, r.version, r.disk))
    requires forall i :: 0 <= i < |cs| ==> cs[i] in Affected(r.version)
    ensures Sound(env, Execute(b, Puts(pending) + ManifestWrites(r, cs, notes, PlatformsFor(env, r))))
  {
    var staged := Execute(b, Puts(pending));
    assert Puts(pending)[..|pending|] == Puts(pending);
    ObjectPhase(env, b, r, pending, |pending|);
    PutsStage(env, b, r, pending);
    StagedIsBacked(env, staged.objects, r);
    ManifestsKeepSound(env, staged, r, cs, notes, PlatformsFor(env, r));
    ExecuteConcat(b, Puts(pending), ManifestWrites(r, cs, notes, PlatformsFor(env, r)));
  }

  /** A prefix of a plan's writes is a prefix of its PUTs, or all of them and a prefix of its pointer moves. */
  lemma PlanPrefix(
    r: Request, pending: seq<Object>, cs: seq<Channel>, notes: Notes, platforms: map<string, Platform>, k: nat
  )
    requires k <= |pending| + |cs|
    ensures var ws := Puts(pending) + ManifestWrites(r, cs, notes, platforms);
            if k <= |pending| then ws[..k] == Puts(pending)[..k]
            else ws[..k] == Puts(pending) + ManifestWrites(r, cs[..k - |pending|], notes, platforms)
  {
  }

  /** Referential integrity of one run, however many of its PUTs happen. */
  lemma {:induction false} EveryPutKeepsSound(env: Environment, b: Bucket, r: Request, k: nat)
    requires WellFormed(r.version) && Sound(env, b) && k <= |PlanRun(env, b, r).writes|
    ensures Sound(env, Execute(b, PlanRun(env, b, r).writes[..k]))
  {
    var plan := PlanRun(env, b, r);
    if plan.writes == [] { return; }
    var pending, cs := PlanShape(env, b, r);
    if plan.error.Some? {
      ObjectPhase(env, b, r, pending, k);
    } else {
      PlanPrefix(r, pending, cs, r.notes.value, PlatformsFor(env, r), k);
      if k <= |pending| {
        ObjectPhase(env, b, r, pending, k);
      } else {
        PointerPhase(env, b, r, pending, cs[..k - |pending|], r.notes.value);
      }
    }
  }
}
