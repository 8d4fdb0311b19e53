/**
 * What a completed publish or resume has put into the bucket, and when it completes, in terms of the version, the local
 * files and the bucket it found.
 */
module ReleaseMeaning {
  import opened Text
  import opened Versions
  import opened Release
  import opened ReleaseSafety
  import opened ReleaseRuns
  import opened ReleaseCascade
  import opened ReleaseLive

  // ---- Names, spelled out ----

  function FileName(v: Version, kind: string): string { "Hive-" + VersionString(v) + kind }

  const ZIP := "-darwin-universal.zip"
  const DMG := "-darwin-universal.dmg"
  const AMD64 := "-linux-amd64.tar.gz"
  const ARM64 := "-linux-arm64.tar.gz"
  const KINDS: seq<string> := [ZIP, DMG, AMD64, ARM64]

  function Place(v: Version, name: string): string { "desktop/releases/" + VersionString(v) + "/" + name }

  lemma NamesSpelledOut(v: Version)
    ensures ReleaseFiles(v) == [FileName(v, ZIP), FileName(v, DMG), FileName(v, AMD64), FileName(v, ARM64)]
    ensures forall name :: Key(v, name) == Place(v, name)
  {
    hide VersionString;
    var s := VersionString(v);
    assert "Hive-" + s + "-linux-" + "amd64" + ".tar.gz" == FileName(v, AMD64);
    assert "Hive-" + s + "-linux-" + "arm64" + ".tar.gz" == FileName(v, ARM64);
  }

  // ---- The platform entries ----

  /** URL, digest and size are those of the local file. */
  predicate Describes(env: Environment, v: Version, disk: Disk, name: string, url: string, sha256: string, size: int) {
    name in disk && url == env.base + "/" + Place(v, name) && sha256 == env.digest(disk[name]) && size == |disk[name]|
  }

  predicate Updates(env: Environment, v: Version, disk: Disk, name: string, p: Platform) {
    Describes(env, v, disk, name, p.url, p.sha256, p.size)
  }

  predicate Installs(env: Environment, v: Version, disk: Disk, name: string, p: Platform) {
    Describes(env, v, disk, name, p.installerUrl, p.installerSha256, p.installerSize)
  }

  /**
   * One entry for macOS with zip and disk image, and one per Linux architecture with its own tarball and no installer.
   */
  predicate EveryPlatform(env: Environment, v: Version, disk: Disk, platforms: map<string, Platform>) {
    && platforms.Keys == {"darwin-universal", "linux-amd64", "linux-arm64"}
    && Updates(env, v, disk, FileName(v, ZIP), platforms["darwin-universal"])
    && Installs(env, v, disk, FileName(v, DMG), platforms["darwin-universal"])
    && Updates(env, v, disk, FileName(v, AMD64), platforms["linux-amd64"]) && !HasInstaller(platforms["linux-amd64"])
    && Updates(env, v, disk, FileName(v, ARM64), platforms["linux-arm64"]) && !HasInstaller(platforms["linux-arm64"])
  }

  lemma FoldOne(env: Environment, v: Version, a: seq<Artifact>, x: Artifact)
    ensures var before := PlatformsOf(env, v, a);
            PlatformsOf(env, v, a + [x]) == before[x.platform := WithArtifact(env, v, Lookup(before, x.platform), x)]
  {
    assert (a + [x])[..|a|] == a;
  }

  lemma {:induction false} FoldSpelledOut(env: Environment, v: Version, disk: Disk)
    requires Built(v, disk)
    ensures EveryPlatform(env, v, disk, PlatformsOf(env, v, Artifacts(env, v, disk)))
  {
    hide VersionString, FileName, Place, PlatformsOf;
    NamesSpelledOut(v);
    var a := Artifacts(env, v, disk);
    assert [] + [a[0]] == [a[0]] && [a[0]] + [a[1]] == [a[0], a[1]] && [a[0], a[1]] + [a[2]] == [a[0], a[1], a[2]];
    assert [a[0], a[1], a[2]] + [a[3]] == a;
    FoldNothing(env, v);
    FoldOne(env, v, [], a[0]);
    FoldOne(env, v, [a[0]], a[1]);
    FoldOne(env, v, [a[0], a[1]], a[2]);
    FoldOne(env, v, [a[0], a[1], a[2]], a[3]);
  }

  lemma FoldNothing(env: Environment, v: Version)
    ensures PlatformsOf(env, v, []) == map[]
  {
  }

  // ---- What a completed run leaves ----

  function ChannelWord(c: Channel): string {
    match c case Dev => "dev" case Beta => "beta" case Stable => "stable"
  }

  /**
   * A completed run from a sound bucket: every affected pointer carries its channel, the version, the changelog entry
   * and an entry per platform that describes that platform's own files; a fresh run stamps it with its time.
   */
  lemma {:induction false} CompletedPointer(env: Environment, b: Bucket, r: Request, c: Channel)
    requires Sound(env, b) && WellFormed(r.version) && PlanRun(env, b, r).error.None? && c in Affected(r.version)
    ensures var manifests := Execute(b, PlanRun(env, b, r).writes).manifests;
            && c in manifests && r.notes.Some?
            && manifests[c].channel == ChannelWord(c) && manifests[c].version == VersionString(r.version)
            && manifests[c].summary == r.notes.value.summary && manifests[c].notes == r.notes.value.body
            && (r.mode.Fresh? ==> manifests[c].pubDate == r.pubDate)
            && EveryPlatform(env, r.version, r.disk, manifests[c].platforms)
  {
    hide PlanRun, Parse, VersionString, Sound, PlatformsFor, Artifacts, GoodArtifacts, Execute, Built, EveryPlatform;
    var pending, cs := PlanSummary(env, b, r);
    UnpublishedIsOlder(env, b, r, c);
    PutsStore(b, pending);
    PointersAfter(Execute(b, Puts(pending)), r, cs, r.notes.value, PlatformsFor(env, r));
    ExecuteConcat(b, Puts(pending), Moves(env, r, cs));
    CompletedPlatforms(env, b, r, c);
    PlatformsSpelledOut(env, r);
    if c !in cs {
      SkippedIsOwn(env, b, r, c);
    }
  }

  lemma PlatformsSpelledOut(env: Environment, r: Request)
    requires Built(r.version, r.disk)
    ensures EveryPlatform(env, r.version, r.disk, PlatformsFor(env, r))
  {
    hide Artifacts, PlatformsOf, Built, EveryPlatform;
    FoldSpelledOut(env, r.version, r.disk);
  }

  lemma SkippedIsOwn(env: Environment, b: Bucket, r: Request, c: Channel)
    requires Sound(env, b) && Passed(env, b, r) && WellFormed(r.version)
    requires c in Affected(r.version) && c !in Unpublished(r, Affected(r.version), b.manifests)
    ensures r.mode.Resume? && c in b.manifests && b.manifests[c].version == VersionString(r.version)
    ensures SameRelease(c, b.manifests[c], r.notes.value, PlatformsFor(env, r))
  {
    hide Parse, VersionString, TrimSpace, PlatformsFor, Artifacts, GoodArtifacts, PlatformsStored;
    assert Skipped(r, c, b.manifests);
    assert PointerSound(env, b.objects, c, b.manifests[c]);
  }

  /** One line of SHA256SUMS: the digest of a local file, two spaces and its name. */
  function SumsLine(env: Environment, disk: Disk, name: string): string
    requires name in disk
  {
    env.digest(disk[name]) + "  " + name + "\n"
  }

  predicate AllOnDisk(v: Version, disk: Disk) { forall i :: 0 <= i < 4 ==> FileName(v, KINDS[i]) in disk }

  /** SHA256SUMS: zip, disk image, amd64, arm64. */
  function SumsText(env: Environment, v: Version, disk: Disk): string
    requires AllOnDisk(v, disk)
  {
    assert forall i :: 0 <= i < 4 ==> FileName(v, KINDS[i]) in disk;
    SumsLine(env, disk, FileName(v, KINDS[0])) + SumsLine(env, disk, FileName(v, KINDS[1]))
    + SumsLine(env, disk, FileName(v, KINDS[2])) + SumsLine(env, disk, FileName(v, KINDS[3]))
  }

  lemma BuiltIsOnDisk(v: Version, disk: Disk)
    ensures Built(v, disk) <==> AllOnDisk(v, disk)
  {
    hide VersionString, FileName;
    NamesSpelledOut(v);
    assert forall i :: 0 <= i < 4 ==> ReleaseFiles(v)[i] == FileName(v, KINDS[i]);
  }

  lemma ChecksumsOne(a: seq<Artifact>, x: Artifact)
    ensures Checksums(a + [x]) == Checksums(a) + (x.checksum + "  " + x.name + "\n")
  {
    assert (a + [x])[..|a|] == a;
  }

  lemma {:induction false} SumsSpelledOut(env: Environment, v: Version, disk: Disk)
    requires Built(v, disk)
    ensures AllOnDisk(v, disk) && Checksums(Artifacts(env, v, disk)) == SumsText(env, v, disk)
  {
    hide VersionString, FileName, Checksums;
    NamesSpelledOut(v);
    BuiltIsOnDisk(v, disk);
    var a := Artifacts(env, v, disk);
    assert [] + [a[0]] == [a[0]] && [a[0]] + [a[1]] == [a[0], a[1]] && [a[0], a[1]] + [a[2]] == [a[0], a[1], a[2]];
    assert [a[0], a[1], a[2]] + [a[3]] == a;
    NoChecksums();
    ChecksumsOne([], a[0]);
    ChecksumsOne([a[0]], a[1]);
    ChecksumsOne([a[0], a[1]], a[2]);
    ChecksumsOne([a[0], a[1], a[2]], a[3]);
  }

  lemma NoChecksums()
    ensures Checksums([]) == ""
  {
  }

  /** The five objects of the release. */
  function ObjectName(v: Version, i: nat): string
    requires i < 5
  {
    if i < 4 then FileName(v, KINDS[i]) else "SHA256SUMS"
  }

  lemma UploadSpelledOut(env: Environment, r: Request, i: nat)
    requires WellFormed(r.version) && Built(r.version, r.disk) && i < 5
    ensures |UploadList(env, r)| == 5 && UploadList(env, r)[i].key == Place(r.version, ObjectName(r.version, i))
    ensures i < 4 ==>
              ObjectName(r.version, i) in r.disk && UploadList(env, r)[i].body == r.disk[ObjectName(r.version, i)]
    ensures i == 4 ==> AllOnDisk(r.version, r.disk)
                       && UploadList(env, r)[i].body == SumsText(env, r.version, r.disk)
  {
    hide VersionString, FileName, Place, Checksums, SumsText;
    NamesSpelledOut(r.version);
    SumsSpelledOut(env, r.version, r.disk);
    assert forall j :: 0 <= j < 4 ==> ReleaseFiles(r.version)[j] in r.disk;
  }

  /** A completed run has stored the release's own files and checksums, and touched no other object. */
  lemma {:induction false} CompletedObjects(env: Environment, b: Bucket, r: Request)
    requires Sound(env, b) && WellFormed(r.version) && PlanRun(env, b, r).error.None?
    ensures var objects := Execute(b, PlanRun(env, b, r).writes).objects;
            && (forall i :: 0 <= i < 5 ==> Place(r.version, ObjectName(r.version, i)) in objects)
            && (forall i :: 0 <= i < 4 ==>
                  ObjectName(r.version, i) in r.disk
                  && SameFile(env, objects[Place(r.version, ObjectName(r.version, i))],
                       r.disk[ObjectName(r.version, i)]))
            && AllOnDisk(r.version, r.disk)
            && SameFile(env, objects[Place(r.version, ObjectName(r.version, 4))], SumsText(env, r.version, r.disk))
            && (forall k :: (forall i :: 0 <= i < 5 ==> k != Place(r.version, ObjectName(r.version, i))) ==>
                  (k in objects <==> k in b.objects) && (k in objects ==> objects[k] == b.objects[k]))
  {
    hide PlanRun, Parse, VersionString, Sound, Artifacts, GoodArtifacts, Execute, Checksums, Pending, ObjectName,
        Place, SameFile;
    hide ObjectsOf, ManifestWrites, Puts, PlatformsFor;
    var pending, cs := PlanShape(env, b, r);
    UploadKeys(env, r);
    var all, objects := UploadList(env, r), Execute(b, Puts(pending)).objects;
    PointersAfter(Execute(b, Puts(pending)), r, cs, r.notes.value, PlatformsFor(env, r));
    ExecuteConcat(b, Puts(pending), ManifestWrites(r, cs, r.notes.value, PlatformsFor(env, r)));
    PendingIsDistinct(env, b.objects, all, r.mode);
    PutsStore(b, pending);
    PendingIsNew(env, b.objects, all, r.mode);
    forall i | 0 <= i < 5
      ensures var place := Place(r.version, ObjectName(r.version, i));
              && all[i].key == place && place in objects && SameFile(env, objects[place], all[i].body)
      ensures i < 4 ==> ObjectName(r.version, i) in r.disk && all[i].body == r.disk[ObjectName(r.version, i)]
    {
      UploadSpelledOut(env, r, i);
      ObjectIsStaged(env, b, all, r.mode, i);
    }
    UploadSpelledOut(env, r, 4);
    forall o | o in pending ensures exists i :: 0 <= i < 5 && o.key == Place(r.version, ObjectName(r.version, i)) {
      var i :| 0 <= i < 5 && all[i] == o;
      assert o.key == Place(r.version, ObjectName(r.version, i));
    }
  }

  // ---- When a run completes ----

  predicate Hex64(s: string) {
    |s| == 64 && forall i :: 0 <= i < 64 ==> '0' <= s[i] <= '9' || 'a' <= s[i] <= 'f' || 'A' <= s[i] <= 'F'
  }

  /** A local file a manifest may name: not empty, with a proper digest and URL. */
  predicate Publishable(env: Environment, v: Version, disk: Disk, name: string) {
    && name in disk && disk[name] != "" && Hex64(env.digest(disk[name]))
    && env.base + "/" + Place(v, name) != "" && env.urlOk(env.base + "/" + Place(v, name))
  }

  lemma {:induction false} GoodArtifactsExactly(env: Environment, v: Version, disk: Disk)
    requires Built(v, disk)
    ensures GoodArtifacts(env, v, Artifacts(env, v, disk)) <==>
              forall i :: 0 <= i < 4 ==> Publishable(env, v, disk, FileName(v, KINDS[i]))
  {
    hide VersionString, FileName, Place, PlatformsOf;
    FoldSpelledOut(env, v, disk);
    var platforms := PlatformsOf(env, v, Artifacts(env, v, disk));
    assert KINDS[0] == ZIP && KINDS[1] == DMG && KINDS[2] == AMD64 && KINDS[3] == ARM64;
    assert forall k :: k in platforms <==> k == "darwin-universal" || k == "linux-amd64" || k == "linux-arm64";
  }

  /** What `readManifests` asks of a pointer. */
  predicate PointerReadable(env: Environment, c: Channel, m: Manifest) {
    && m.channel == ChannelWord(c) && Parse(m.version).Some? && "darwin-universal" in m.platforms
    && forall k :: k in m.platforms ==>
                     var p := m.platforms[k];
                     && Named(env, p.url, p.sha256, p.size)
                     && ((p.installerUrl == "" && p.installerSha256 == "" && p.installerSize == 0)
                         || Named(env, p.installerUrl, p.installerSha256, p.installerSize))
  }

  predicate Named(env: Environment, url: string, sha256: string, size: int) {
    url != "" && env.urlOk(url) && Hex64(sha256) && size >= 1
  }

  lemma ReadableExactly(env: Environment, manifests: Manifests)
    ensures Readable(env, manifests) <==> forall c :: c in manifests ==> PointerReadable(env, c, manifests[c])
  {
    hide Parse;
    NothingDoesNotParse();
    forall c | c in manifests ensures ValidManifest(env, c, manifests[c]) <==> PointerReadable(env, c, manifests[c]) {
      assert ChannelWord(c) == ChannelName(c);
    }
  }

  lemma NothingDoesNotParse()
    ensures Parse("").None?
  {
  }

  /**
   * What both kinds of run ask for: the gates, a changelog entry, readable pointers, and files that may be published.
   */
  predicate Prepared(env: Environment, b: Bucket, r: Request) {
    && r.gates && r.notes.Some? && (forall c :: c in b.manifests ==> PointerReadable(env, c, b.manifests[c]))
    && forall i :: 0 <= i < 4 ==>
                     && Publishable(env, r.version, r.disk, FileName(r.version, KINDS[i]))
                     && FileName(r.version, KINDS[i]) !in r.damaged
  }

  lemma ReadyIsPrepared(env: Environment, b: Bucket, r: Request)
    ensures Ready(env, b, r) <==> Prepared(env, b, r)
    ensures Prepared(env, b, r) ==> Built(r.version, r.disk) && AllOnDisk(r.version, r.disk)
  {
    hide VersionString, FileName, Publishable, GoodArtifacts, Artifacts, Readable, PointerReadable;
    var v := r.version;
    NamesSpelledOut(v);
    assert forall i :: 0 <= i < 4 ==> ReleaseFiles(v)[i] == FileName(v, KINDS[i]);
    ReadableExactly(env, b.manifests);
    PublishableIsOnDisk(env, v, r.disk);
    BuiltIsOnDisk(v, r.disk);
    if Built(v, r.disk) {
      GoodArtifactsExactly(env, v, r.disk);
    }
  }

  lemma PublishableIsOnDisk(env: Environment, v: Version, disk: Disk)
    ensures (forall i :: 0 <= i < 4 ==> Publishable(env, v, disk, FileName(v, KINDS[i]))) ==> AllOnDisk(v, disk)
  {
    hide FileName, Place;
  }

  /** The version a pointer names is older than v. */
  predicate Older(m: Manifest, v: Version)
  {
    Parse(m.version).Some? && Below(VersionOf(m), v)
  }

  /**
   * A fresh publish completes exactly when it is prepared, every pointer at its channel or a faster one is older, and
   * none of its five objects is stored, or it is forced.
   */
  lemma {:induction false} FreshCompletesExactly(env: Environment, b: Bucket, r: Request)
    requires r.mode.Fresh? && WellFormed(r.version)
    ensures PlanRun(env, b, r).error.None? <==>
              && Prepared(env, b, r)
              && (forall c :: c in b.manifests && Rank(c) <= Rank(r.version.channel) ==>
                   Older(b.manifests[c], r.version))
              && (r.mode.force || forall i :: 0 <= i < 5 ==> Place(r.version, ObjectName(r.version, i)) !in b.objects)
  {
    hide PlanRun, Parse, VersionString, Ready, Prepared, Key, Place, Compare, ObjectName;
    FreshSucceedsExactly(env, b, r);
    ReadyIsPrepared(env, b, r);
    forall c | c in b.manifests && Parse(b.manifests[c].version).Some?
      ensures Compare(r.version, VersionOf(b.manifests[c])) > 0 <==> Older(b.manifests[c], r.version)
    {
      PromotionOrderIsTotal(r.version, VersionOf(b.manifests[c]), r.version);
    }
    if Built(r.version, r.disk) {
      forall i | 0 <= i < 5
        ensures Key(r.version, UploadName(r.version, i)) == Place(r.version, ObjectName(r.version, i))
      {
        UploadKeys(env, r);
        UploadSpelledOut(env, r, i);
      }
    }
  }

  /** A pointer that names v already, with this changelog entry and the entries of these files. */
  predicate SameRun(env: Environment, r: Request, c: Channel, m: Manifest)
    requires r.notes.Some?
  {
    && Parse(m.version) == Some(r.version) && m.channel == ChannelWord(c)
    && m.summary == r.notes.value.summary && m.notes == r.notes.value.body
    && EveryPlatform(env, r.version, r.disk, m.platforms)
  }

  lemma {:induction false} EveryPlatformIsUnique(
    env: Environment, v: Version, disk: Disk, a: map<string, Platform>, b: map<string, Platform>
  )
    requires EveryPlatform(env, v, disk, a) && EveryPlatform(env, v, disk, b)
    ensures a == b
  {
    hide FileName, Place;
    assert a.Keys == b.Keys;
    forall k | k in a ensures a[k] == b[k] {
      assert k == "darwin-universal" || k == "linux-amd64" || k == "linux-arm64";
    }
  }

  lemma VerdictSpelledOut(env: Environment, b: Bucket, r: Request, c: Channel)
    requires r.notes.Some? && Built(r.version, r.disk) && (c in b.manifests ==> Parse(b.manifests[c].version).Some?)
    ensures ResumeVerdict(r.version, c, b.manifests, r.notes.value, PlatformsFor(env, r)).None? <==>
              (c in b.manifests ==> Older(b.manifests[c], r.version) || SameRun(env, r, c, b.manifests[c]))
  {
    hide Parse, EveryPlatform, PlatformsFor, Compare;
    if c in b.manifests {
      var m := b.manifests[c];
      PromotionOrderIsTotal(r.version, VersionOf(m), r.version);
      PlatformsSpelledOut(env, r);
      assert m.platforms == PlatformsFor(env, r) <==> EveryPlatform(env, r.version, r.disk, m.platforms) by {
        if EveryPlatform(env, r.version, r.disk, m.platforms) {
          EveryPlatformIsUnique(env, r.version, r.disk, m.platforms, PlatformsFor(env, r));
        }
      }
      assert ChannelWord(c) == ChannelName(c);
    }
  }

  /** The bytes of the release's i-th object. */
  function ObjectBody(env: Environment, r: Request, i: nat): string
    requires i < 5 && AllOnDisk(r.version, r.disk)
  {
    if i < 4 then r.disk[FileName(r.version, KINDS[i])] else SumsText(env, r.version, r.disk)
  }

  /** A stored object differs from the one the run would store there. */
  predicate Clashes(env: Environment, b: Bucket, r: Request, i: nat)
    requires i < 5 && AllOnDisk(r.version, r.disk)
  {
    var place := Place(r.version, ObjectName(r.version, i));
    place in b.objects && !SameFile(env, b.objects[place], ObjectBody(env, r, i))
  }

  /**
   * A resume completes exactly when it is prepared, every pointer at its channel or a faster one is older or already
   * what this run would write, and no stored object differs from its own.
   */
  lemma {:induction false} ResumeCompletesExactly(env: Environment, b: Bucket, r: Request)
    requires r.mode.Resume? && WellFormed(r.version)
    ensures PlanRun(env, b, r).error.None? <==>
              && Prepared(env, b, r)
              && (forall c :: c in b.manifests && Rank(c) <= Rank(r.version.channel) ==>
                    Older(b.manifests[c], r.version) || SameRun(env, r, c, b.manifests[c]))
              && AllOnDisk(r.version, r.disk) && forall i :: 0 <= i < 5 ==> !Clashes(env, b, r, i)
  {
    hide PlanRun, Parse, VersionString, Ready, Prepared, Place, ObjectName, ResumeVerdict, Older, SameRun, SameFile;
    hide PlatformsFor, Clashes, Built, AllOnDisk, Artifacts, ObjectsOf;
    ResumeSucceedsExactly(env, b, r);
    ReadyIsPrepared(env, b, r);
    if Prepared(env, b, r) {
      PointersParse(env, b, r);
      forall c ensures ResumeVerdict(r.version, c, b.manifests, r.notes.value, PlatformsFor(env, r)).None? <==>
                         (c in b.manifests ==> Older(b.manifests[c], r.version) || SameRun(env, r, c, b.manifests[c])) {
        VerdictSpelledOut(env, b, r, c);
      }
      var all := UploadList(env, r);
      forall i | 0 <= i < 5
        ensures |all| == 5
        ensures Clashes(env, b, r, i) <==> all[i].key in b.objects && !SameFile(env, b.objects[all[i].key], all[i].body)
      {
        ClashSpelledOut(env, b, r, i);
      }
    }
  }

  lemma PointersParse(env: Environment, b: Bucket, r: Request)
    requires Prepared(env, b, r)
    ensures r.notes.Some? && forall c :: c in b.manifests ==> Parse(b.manifests[c].version).Some?
  {
    hide Parse, Publishable;
  }

  lemma ClashSpelledOut(env: Environment, b: Bucket, r: Request, i: nat)
    requires WellFormed(r.version) && Built(r.version, r.disk) && AllOnDisk(r.version, r.disk) && i < 5
    ensures var all := UploadList(env, r);
            && |all| == 5
            && (Clashes(env, b, r, i) <==>
                 all[i].key in b.objects && !SameFile(env, b.objects[all[i].key], all[i].body))
  {
    hide SameFile, Place, FileName, SumsText, Artifacts, ObjectsOf, UploadList;
    UploadSpelledOut(env, r, i);
  }

  /**
   * A run that is refused moves no pointer and, unless it is forced, leaves every stored object as it is: what it has
   * put under new keys, if anything, no pointer names.
   */
  lemma {:induction false} RefusedRunIsHarmless(env: Environment, b: Bucket, r: Request)
    requires WellFormed(r.version) && PlanRun(env, b, r).error.Some?
    ensures var after := Execute(b, PlanRun(env, b, r).writes);
            && after.manifests == b.manifests
            && (r.mode != Fresh(true) ==> forall k :: k in b.objects ==>
                 k in after.objects && after.objects[k] == b.objects[k])
  {
    hide Parse, VersionString, Artifacts, GoodArtifacts, Readable, Advances, Key, ObjectsOf, Puts, FirstVerdict,
        Pending, ReleaseFiles;
    var ws := PlanRun(env, b, r).writes;
    if ws != [] {
      var all := UploadList(env, r);
      UploadKeys(env, r);
      var pending := Pending(env, b.objects, all, r.mode).value;
      PendingIsNew(env, b.objects, all, r.mode);
      PendingIsDistinct(env, b.objects, all, r.mode);
      assert ws == Puts(pending);
      PutsStore(b, pending);
    }
  }
}
