/**
 * The publisher as it runs: loops over local files, remote checks and one PUT at a time (cmd/release/publish.go,
 * resume.go).
 */
module Publishers {
  import opened Text
  import opened Versions
  import opened Release
  import opened ReleaseSafety

  /** The bucket, and how many more PUTs will succeed before one fails or the process dies. */
  class Remote {
    var objects: map<string, string>
    var manifests: Manifests
    var budget: nat

    constructor (b: Bucket, budget: nat)
      ensures State() == b && this.budget == budget
    {
      objects, manifests := b.objects, b.manifests;
      this.budget := budget;
    }

    function State(): Bucket
      reads this
    {
      Bucket(objects, manifests)
    }

    /** `r2Put`. */
    method Put(w: Write) returns (ok: bool)
      modifies this
      ensures ok <==> old(budget) > 0
      ensures ok ==> State() == Apply(old(State()), w) && budget == old(budget) - 1
      ensures !ok ==> State() == old(State()) && budget == old(budget)
    {
      if budget == 0 {
        return false;
      }
      match w {
        case PutObject(key, body) => objects := objects[key := body];
        case PutManifest(c, m) => manifests := manifests[c := m];
      }
      budget := budget - 1;
      ok := true;
    }
  }

  /** Where a run that may make `budget` PUTs leaves the bucket. */
  function Reaches(b: Bucket, writes: seq<Write>, budget: nat): Bucket {
    Execute(b, FirstOf(writes, budget))
  }

  /** How it ends. */
  function Ends(plan: Plan, budget: nat): Option<Error> {
    if budget < |plan.writes| then Some(PutFailed) else plan.error
  }

  class Publisher {
    const env: Environment
    const remote: Remote
    const request: Request
    var disk: Disk

    constructor (env: Environment, remote: Remote, request: Request)
      ensures this.env == env && this.remote == remote && this.request == request && disk == request.disk
    {
      this.env, this.remote, this.request := env, remote, request;
      disk := request.disk;
    }

    /** The files of the release are as the request gave them; only SHA256SUMS may have been rewritten. */
    predicate FilesKept()
      reads this
    {
      forall name :: name in ReleaseFiles(request.version) ==>
                       (name in disk <==> name in request.disk) && (name in disk ==> disk[name] == request.disk[name])
    }

    /** `load` of `loadReleaseArtifacts`, and the last step of `packageApp`, `packageInstaller` and `buildLinux`. */
    method Load(platform: string, role: Role, name: string) returns (a: Result<Artifact>)
      ensures a.Ok? <==> name in disk && name !in request.damaged
      ensures a.Ok? ==> a.value == Stamp(env, disk, platform, role, name)
      ensures a.Err? ==> a.error == UnusableArtifact
    {
      if name !in disk || name in request.damaged {
        return Err(UnusableArtifact);
      }
      a := Ok(Artifact(platform, role, name, env.digest(disk[name]), |disk[name]|));
    }

    /**
     * The artifact list of a fresh run and of `loadReleaseArtifacts`: app, installer, then every Linux architecture.
     */
    method CollectArtifacts() returns (r: Result<seq<Artifact>>)
      requires FilesKept()
      ensures r.Ok? <==> Intact(request)
      ensures r.Ok? ==> r.value == Artifacts(env, request.version, request.disk)
      ensures r.Err? ==> r.error == UnusableArtifact
    {
      hide VersionString;
      var v := request.version;
      assert ReleaseFiles(v)[0] == ZipName(v) && ReleaseFiles(v)[1] == DmgName(v);
      assert ReleaseFiles(v)[2] == TarName(v, "amd64") && ReleaseFiles(v)[3] == TarName(v, "arm64");
      var mac := Load(MAC, Update, ZipName(v));
      if mac.Err? { return Err(mac.error); }
      var installer := Load(MAC, Installer, DmgName(v));
      if installer.Err? { return Err(installer.error); }
      var artifacts := [mac.value, installer.value];
      for i := 0 to |LINUX_ARCHES|
        invariant |artifacts| == 2 + i
        invariant artifacts[0] == mac.value && artifacts[1] == installer.value
        invariant forall j :: 0 <= j < i ==>
                    TarName(v, LINUX_ARCHES[j]) in disk && TarName(v, LINUX_ARCHES[j]) !in request.damaged
        invariant forall j :: 0 <= j < i ==>
                    artifacts[2 + j] ==
                        Stamp(env, disk, "linux-" + LINUX_ARCHES[j], Update, TarName(v, LINUX_ARCHES[j]))
      {
        var artifact := Load("linux-" + LINUX_ARCHES[i], Update, TarName(v, LINUX_ARCHES[i]));
        if artifact.Err? { return Err(artifact.error); }
        artifacts := artifacts + [artifact.value];
      }
      assert "linux-" + LINUX_ARCHES[0] == "linux-amd64" && "linux-" + LINUX_ARCHES[1] == "linux-arm64";
      assert artifacts == Artifacts(env, v, request.disk);
      r := Ok(artifacts);
    }

    /** `writeChecksums`. */
    method WriteChecksums(artifacts: seq<Artifact>)
      requires FilesKept()
      modifies this
      ensures FilesKept()
      ensures SUMS in disk && disk[SUMS] == Checksums(artifacts)
    {
      var contents := "";
      for i := 0 to |artifacts|
        invariant contents == Checksums(artifacts[..i])
      {
        assert artifacts[..i + 1][..i] == artifacts[..i];
        contents := contents + (artifacts[i].checksum + "  " + artifacts[i].name + "\n");
      }
      assert artifacts[..|artifacts|] == artifacts;
      NamesAreDistinct(request.version);
      disk := disk[SUMS := contents];
    }

    /** `readManifests`. */
    method ReadManifests() returns (r: Result<Manifests>)
      ensures r.Ok? <==> Readable(env, remote.manifests)
      ensures r.Ok? ==> r.value == remote.manifests
      ensures r.Err? ==> r.error == BadManifest
    {
      hide ValidManifest;
      var channels := [Stable, Beta, Dev];
      var manifests: Manifests := map[];
      for i := 0 to |channels|
        invariant forall c :: c in manifests <==> c in channels[..i] && c in remote.manifests
        invariant forall c :: c in manifests ==>
                    manifests[c] == remote.manifests[c] && ValidManifest(env, c, manifests[c])
      {
        var c := channels[i];
        if c in remote.manifests {
          if !ValidManifest(env, c, remote.manifests[c]) { return Err(BadManifest); }
          manifests := manifests[c := remote.manifests[c]];
        }
      }
      assert channels[..3] == channels;
      assert channels[0] == Stable && channels[1] == Beta && channels[2] == Dev;
      forall c: Channel ensures c in channels {
        match c { case Stable => case Beta => case Dev => }
      }
      r := Ok(manifests);
    }

    /** `platformManifests`. */
    method PlatformManifests(artifacts: seq<Artifact>) returns (r: Result<map<string, Platform>>)
      ensures r.Ok? <==> GoodArtifacts(env, request.version, artifacts)
      ensures r.Ok? ==> r.value == PlatformsOf(env, request.version, artifacts)
      ensures r.Err? ==> r.error == BadArtifact
    {
      hide VersionString, ValidPlatform, WithArtifact;
      var platforms: map<string, Platform> := map[];
      for i := 0 to |artifacts|
        invariant HasRoles(artifacts[..i])
        invariant platforms == PlatformsOf(env, request.version, artifacts[..i])
      {
        var artifact := artifacts[i];
        if artifact.role.NoRole? {
          assert artifact in artifacts;
          return Err(BadArtifact);
        }
        assert artifacts[..i + 1][..i] == artifacts[..i];
        var entry := Lookup(platforms, artifact.platform);
        platforms := platforms[artifact.platform := WithArtifact(env, request.version, entry, artifact)];
      }
      assert artifacts[..|artifacts|] == artifacts;
      if !ValidPlatforms(env, platforms) { return Err(BadArtifact); }
      r := Ok(platforms);
    }

    /** The first half of `upload`: the object list, and an action for each before any PUT. */
    method DecideUploads(artifacts: seq<Artifact>) returns (r: Result<seq<Object>>)
      requires FilesKept() && Built(request.version, request.disk)
      requires artifacts == Artifacts(env, request.version, request.disk)
      requires SUMS in disk && disk[SUMS] == Checksums(artifacts)
      ensures r == Pending(env, remote.objects, UploadList(env, request), request.mode)
    {
      hide VersionString, Checksums, Artifacts, Decide;
      var objects: seq<Object> := [];
      for i := 0 to |artifacts|
        invariant |objects| == i
        invariant forall j :: 0 <= j < i ==>
                    objects[j] == Object(Key(request.version, artifacts[j].name), request.disk[artifacts[j].name])
      {
        assert ReleaseFiles(request.version)[i] in ReleaseFiles(request.version);
        objects := objects + [Object(Key(request.version, artifacts[i].name), disk[artifacts[i].name])];
      }
      objects := objects + [Object(Key(request.version, SUMS), disk[SUMS])];
      assert objects == UploadList(env, request);

      var pending: seq<Object> := [];
      for i := 0 to |objects|
        invariant Pending(env, remote.objects, objects[..i], request.mode) == Ok(pending)
      {
        assert objects[..i + 1][..i] == objects[..i];
        var action := Decide(env, remote.objects, objects[i], request.mode);
        if action.Err? {
          PendingFails(env, remote.objects, objects, request.mode, i, action.error);
          return Err(action.error);
        }
        if action.value.Upload? {
          pending := pending + [objects[i]];
        }
      }
      assert objects[..|objects|] == objects;
      r := Ok(pending);
    }

    /** The upload loop. */
    method PutAll(pending: seq<Object>) returns (err: Option<Error>)
      modifies remote
      ensures remote.State() == Reaches(old(remote.State()), Puts(pending), old(remote.budget))
      ensures err == Ends(Plan(Puts(pending), None), old(remote.budget))
      ensures err.None? ==> remote.budget == old(remote.budget) - |pending|
    {
      ghost var ws := Puts(pending);
      assert ws[..0] == [];
      for i := 0 to |pending|
        invariant i <= old(remote.budget) && remote.budget == old(remote.budget) - i
        invariant remote.State() == Execute(old(remote.State()), ws[..i])
      {
        var ok := remote.Put(PutObject(pending[i].key, pending[i].body));
        if !ok { return Some(PutFailed); }
        ExecuteStep(old(remote.State()), ws, i);
      }
      assert ws[..|ws|] == ws;
      err := None;
    }

    /** The manifest loop: every affected channel in cascade order, except those a resume finds published. */
    method MoveChannels(notes: Notes, platforms: map<string, Platform>, current: Manifests) returns (err: Option<Error>)
      modifies remote
      ensures var ws := ManifestWrites(request, Unpublished(request, Affected(request.version), current), notes,
                platforms);
              remote.State() == Reaches(old(remote.State()), ws, old(remote.budget))
                  && err == Ends(Plan(ws, None), old(remote.budget))
    {
      hide VersionString, Skipped, Execute, ManifestFor, ManifestWrites, Affected, Unpublished, Reaches, Ends, Apply;
      var channels := Affected(request.version);
      ghost var cs := Unpublished(request, channels, current);
      ghost var ws := ManifestWrites(request, cs, notes, platforms);
      ghost var done := 0;
      NothingDone(old(remote.State()), ws);
      assert channels[0..] == channels && cs[0..] == cs;
      for i := 0 to |channels|
        invariant done <= |cs| && cs[done..] == Unpublished(request, channels[i..], current)
        invariant done <= old(remote.budget) && remote.budget == old(remote.budget) - done
        invariant remote.State() == Execute(old(remote.State()), ws[..done])
      {
        var channel := channels[i];
        NextUnpublished(request, channels, i, current);
        if !Skipped(request, channel, current) {
          assert cs[done] == cs[done..][0] == channel && cs[done + 1..] == cs[done..][1..];
          var ok := remote.Put(PutManifest(channel, ManifestFor(request, channel, notes, platforms)));
          if !ok {
            StoppedAfter(old(remote.State()), ws, done);
            return Some(PutFailed);
          }
          ExecuteStep(old(remote.State()), ws, done);
          done := done + 1;
        }
      }
      NoneUnpublished(request, channels[|channels|..], current);
      assert done == |cs| && ws[..|ws|] == ws;
      RanToEnd(old(remote.State()), ws, old(remote.budget));
      err := None;
    }

    /** `upload`. */
    method UploadRelease(artifacts: seq<Artifact>, current: Manifests) returns (err: Option<Error>)
      requires FilesKept() && Built(request.version, request.disk)
      requires artifacts == Artifacts(env, request.version, request.disk)
      requires SUMS in disk && disk[SUMS] == Checksums(artifacts)
      requires request.mode.Resume? ==> current == remote.manifests
      modifies remote
      ensures var plan := PlanUpload(env, old(remote.State()), request);
              remote.State() == Reaches(old(remote.State()), plan.writes, old(remote.budget))
                  && err == Ends(plan, old(remote.budget))
    {
      hide VersionString, Checksums, Artifacts, Pending, GoodArtifacts, PlatformsOf, Affected;
      ghost var before, budget := remote.State(), remote.budget;
      ghost var plan := PlanUpload(env, before, request);
      var decided := DecideUploads(artifacts);
      if decided.Err? {
        return Some(decided.error);
      }
      var pending := decided.value;
      err := PutAll(pending);
      if err.Some? {
        PrefixOfPuts(plan.writes, Puts(pending), budget);
        return;
      }
      var platforms := PlatformManifests(artifacts);
      if platforms.Err? { return Some(platforms.error); }
      if request.notes.None? { return Some(NoNotes); }
      UnpublishedWhenFresh(request, Affected(request.version), current, before.manifests);
      err := MoveChannels(request.notes.value, platforms.value, current);
      ghost var moves := ManifestWrites(request, Unpublished(request, Affected(request.version), before.manifests),
          request.notes.value, platforms.value);
      assert plan == Plan(Puts(pending) + moves, None);
      SplitReach(before, Puts(pending), moves, budget);
    }

    /**
     * `publish`: the checks at startup, then the run. It makes the PUTs of its plan, in order, as far as the budget
     * allows.
     */
    method Publish() returns (err: Option<Error>)
      requires disk == request.disk
      modifies this, remote
      ensures var plan := PlanRun(env, old(remote.State()), request);
              remote.State() == Reaches(old(remote.State()), plan.writes, old(remote.budget))
                  && err == Ends(plan, old(remote.budget))
    {
      hide PlanBuild;
      if !request.gates { return Some(GateFailed); }
      if !request.mode.Resume? {
        var manifests := ReadManifests();
        if manifests.Err? { return Some(manifests.error); }
        if !Advances(request.version, manifests.value) { return Some(NotAdvancing); }
      }
      err := Run();
    }

    /** `publisher.run`: artifacts and checksums, then source and manifests again, then the upload. */
    method Run() returns (err: Option<Error>)
      requires disk == request.disk
      modifies this, remote
      ensures var plan := PlanBuild(env, old(remote.State()), request);
              remote.State() == Reaches(old(remote.State()), plan.writes, old(remote.budget))
                  && err == Ends(plan, old(remote.budget))
    {
      hide VersionString, Checksums, Artifacts, PlanUpload, GoodArtifacts, PlatformsOf, Affected, ReleaseFiles;
      if request.mode.Resume? {
        err := ResumePublish();
        return;
      }
      var artifacts := CollectArtifacts();
      if artifacts.Err? { return Some(artifacts.error); }
      WriteChecksums(artifacts.value);
      if !request.gates { return Some(GateFailed); }
      var manifests := ReadManifests();
      if manifests.Err? { return Some(manifests.error); }
      if !Advances(request.version, manifests.value) { return Some(NotAdvancing); }
      err := UploadRelease(artifacts.value, map[]);
    }

    /** `resumePublish`. */
    method ResumePublish() returns (err: Option<Error>)
      requires disk == request.disk && request.mode.Resume?
      modifies this, remote
      ensures var plan := PlanResume(env, old(remote.State()), request);
              remote.State() == Reaches(old(remote.State()), plan.writes, old(remote.budget))
                  && err == Ends(plan, old(remote.budget))
    {
      hide VersionString, Checksums, Artifacts, PlanUpload, GoodArtifacts, PlatformsOf, Affected, FirstVerdict,
          ReleaseFiles;
      var artifacts := CollectArtifacts();
      if artifacts.Err? { return Some(artifacts.error); }
      WriteChecksums(artifacts.value);
      if !request.gates { return Some(GateFailed); }
      var manifests := ReadManifests();
      if manifests.Err? { return Some(manifests.error); }
      var platforms := PlatformManifests(artifacts.value);
      if platforms.Err? { return Some(platforms.error); }
      if request.notes.None? { return Some(NoNotes); }
      var verdict := FirstVerdict(request.version, Affected(request.version), manifests.value, request.notes.value,
          platforms.value);
      if verdict.Some? { return verdict; }
      err := UploadRelease(artifacts.value, manifests.value);
    }
  }

  lemma {:induction false} NextUnpublished(r: Request, cs: seq<Channel>, i: nat, current: Manifests)
    requires i < |cs|
    ensures var rest := Unpublished(r, cs[i + 1..], current);
            Unpublished(r, cs[i..], current) == if Skipped(r, cs[i], current) then rest else [cs[i]] + rest
  {
  }

  lemma NoneUnpublished(r: Request, cs: seq<Channel>, current: Manifests)
    requires cs == []
    ensures Unpublished(r, cs, current) == []
  {
  }

  lemma StoppedAfter(b: Bucket, ws: seq<Write>, budget: nat)
    requires budget < |ws|
    ensures Reaches(b, ws, budget) == Execute(b, ws[..budget]) && Ends(Plan(ws, None), budget) == Some(PutFailed)
  {
  }

  lemma RanToEnd(b: Bucket, ws: seq<Write>, budget: nat)
    requires |ws| <= budget
    ensures Reaches(b, ws, budget) == Execute(b, ws) && Ends(Plan(ws, None), budget) == None
  {
  }

  lemma NothingDone(b: Bucket, ws: seq<Write>)
    ensures Execute(b, ws[..0]) == b
  {
  }

  lemma {:induction false} UnpublishedWhenFresh(r: Request, cs: seq<Channel>, current: Manifests, actual: Manifests)
    requires r.mode.Resume? ==> current == actual
    ensures Unpublished(r, cs, current) == Unpublished(r, cs, actual)
    decreases |cs|
  {
    if cs != [] {
      UnpublishedWhenFresh(r, cs[1..], current, actual);
    }
  }

  lemma PrefixOfPuts(writes: seq<Write>, puts: seq<Write>, budget: nat)
    requires puts <= writes && budget < |puts|
    ensures writes[..budget] == puts[..budget]
  {
  }

  /** Stopping in the second part of a plan is stopping after the first and then in the second. */
  lemma {:induction false} SplitReach(b: Bucket, first: seq<Write>, second: seq<Write>, budget: nat)
    requires |first| <= budget
    ensures Reaches(b, first + second, budget) == Reaches(Execute(b, first), second, budget - |first|)
    ensures Reaches(b, first, budget) == Execute(b, first)
  {
    hide Execute;
    var n := budget - |first|;
    var part := if n < |second| then second[..n] else second;
    ExecuteConcat(b, first, part);
    assert budget < |first + second| ==> (first + second)[..budget] == first + part;
  }

  /** The first object that is refused decides how the whole list fares. */
  lemma {:induction false} PendingFails(
    env: Environment, stored: map<string, string>, objects: seq<Object>, mode: Mode, i: nat, e: Error
  )
    requires i < |objects| && Pending(env, stored, objects[..i], mode).Ok?
               && Decide(env, stored, objects[i], mode) == Err(e)
    ensures Pending(env, stored, objects, mode) == Err(e)
    decreases |objects|
  {
    var n := |objects| - 1;
    if i < n {
      assert objects[..n][..i] == objects[..i];
      PendingFails(env, stored, objects[..n], mode, i, e);
    }
  }
}
