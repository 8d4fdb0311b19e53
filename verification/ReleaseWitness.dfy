/**
 * A history that breaks the cascade order: a stable promotion dies after its first pointer and a lower beta follows.
 */
module ReleaseWitness {
  import opened Text
  import opened Versions
  import opened Release
  import opened ReleaseSafety
  import opened ReleaseRuns
  import opened ReleaseCascade
  import opened ReleaseResume
  import opened ReleaseLive

  /** Every file non-empty, every digest and URL acceptable. */
  predicate Healthy(env: Environment, r: Request) {
    Built(r.version, r.disk)
    && forall i :: 0 <= i < 4 ==>
         var name := ReleaseFiles(r.version)[i];
         |r.disk[name]| > 0 && IsSha256(env.digest(r.disk[name])) && env.urlOk(Url(env, r.version, name))
  }

  lemma {:induction false} HealthyArtifact(env: Environment, r: Request, a: Artifact)
    requires Healthy(env, r) && a in Artifacts(env, r.version, r.disk)
    ensures ValidArtifact(env, Url(env, r.version, a.name), a.checksum, a.size)
  {
  }

  /** Adding an artifact with good metadata keeps every entry good; an installer needs its platform's update first. */
  lemma {:induction false} FoldKeepsValid(env: Environment, v: Version, artifacts: seq<Artifact>, a: Artifact)
    requires ValidPlatforms(env, PlatformsOf(env, v, artifacts))
               && ValidArtifact(env, Url(env, v, a.name), a.checksum, a.size)
    requires a.role.Update? || (a.role.Installer? && a.platform in PlatformsOf(env, v, artifacts))
    ensures ValidPlatforms(env, PlatformsOf(env, v, artifacts + [a]))
              && a.platform in PlatformsOf(env, v, artifacts + [a])
  {
  }

  lemma {:induction false} GoodFold(env: Environment, v: Version, a: seq<Artifact>)
    requires forall i :: 0 <= i < |a| ==> ValidArtifact(env, Url(env, v, a[i].name), a[i].checksum, a[i].size)
    requires forall i :: 0 <= i < |a| ==>
               a[i].role.Update? || (a[i].role.Installer? && exists j :: 0 <= j < i && a[j].platform == a[i].platform)
    ensures ValidPlatforms(env, PlatformsOf(env, v, a))
  {
    hide Url, ValidArtifact, ValidPlatform;
    if a != [] {
      var n := |a| - 1;
      GoodFold(env, v, a[..n]);
      if a[n].role.Installer? {
        var j :| 0 <= j < n && a[j].platform == a[n].platform;
        MacIsListed(env, v, a[..n], j);
      }
      assert a[..n] + [a[n]] == a;
      FoldKeepsValid(env, v, a[..n], a[n]);
    }
  }

  lemma {:induction false} HealthyIsGood(env: Environment, r: Request)
    requires Healthy(env, r)
    ensures GoodArtifacts(env, r.version, Artifacts(env, r.version, r.disk))
  {
    hide VersionString, Url, ReleaseFiles, IsSha256, Healthy, ValidArtifact, ValidPlatforms, PlatformsOf;
    HealthyIsBuilt(env, r);
    var v, a := r.version, Artifacts(env, r.version, r.disk);
    forall i | 0 <= i < 4 ensures ValidArtifact(env, Url(env, v, a[i].name), a[i].checksum, a[i].size) {
      HealthyArtifact(env, r, a[i]);
    }
    GoodFold(env, v, a);
  }

  const ENV := Environment("https://dl.example.com", (_: string) => seq(64, _ => '0'), (_: string) => true)

  const EMPTY := Bucket(map[], map[])

  function RequestFor(v: Version): Request {
    Request(Fresh(false), v,
        map[ZipName(v) := "z", DmgName(v) := "d", TarName(v, "amd64") := "a", TarName(v, "arm64") := "r"],
            {}, Some(Notes("", "")), 0, true)
  }

  const PROMOTED := Version(Base(1, 0, 0), Stable, 0)
  const OVERTAKEN := Version(Base(1, 0, 0), Beta, 1)

  lemma {:induction false} RequestIsHealthy(v: Version)
    ensures Healthy(ENV, RequestFor(v))
  {
    hide VersionString, Key, ZipName, DmgName, TarName;
    var r := RequestFor(v);
    assert ReleaseFiles(v) == [ZipName(v), DmgName(v), TarName(v, "amd64"), TarName(v, "arm64")];
    forall i | 0 <= i < 4 ensures ReleaseFiles(v)[i] in r.disk && |r.disk[ReleaseFiles(v)[i]]| == 1 {
      assert i == 0 || i == 1 || i == 2 || i == 3;
    }
  }

  /** What the interrupted promotion leaves: its files, and only the stable pointer. */
  function Interrupted(): Bucket { AfterAttempt(ENV, EMPTY, Attempt(RequestFor(PROMOTED), 6)) }

  lemma {:induction false} PromotionIsClean()
    ensures Clean(ENV, EMPTY, RequestFor(PROMOTED)) && WellFormed(PROMOTED) && WellFormed(OVERTAKEN)
    ensures Sound(ENV, EMPTY) && Ordered(EMPTY)
  {
    hide VersionString, Key, Healthy, Artifacts, GoodArtifacts, PlanRun;
    var r := RequestFor(PROMOTED);
    RequestIsHealthy(PROMOTED);
    assert Built(r.version, r.disk) by { HealthyIsBuilt(ENV, r); }
    HealthyIsGood(ENV, r);
    FreshSucceedsExactly(ENV, EMPTY, r);
  }

  lemma HealthyIsBuilt(env: Environment, r: Request)
    requires Healthy(env, r)
    ensures Built(r.version, r.disk)
  {
  }

  lemma {:induction false} InterruptedIsStopped()
    ensures StoppedAt(ENV, EMPTY, RequestFor(PROMOTED), 6, Interrupted())
  {
    hide PlanRun, VersionString, Execute;
    var r := RequestFor(PROMOTED);
    PromotionIsClean();
    CleanPlan(ENV, EMPTY, r);
    SameAsItself(Interrupted());
  }

  lemma {:induction false} OvertakenKeysAreFree(name: string)
    ensures Key(OVERTAKEN, name) !in Interrupted().objects
  {
    hide VersionString, PlanRun, Artifacts, GoodArtifacts, Key, Execute, Clean, ObjectsOf, ManifestFor, PlatformsFor,
        Readable, Advances;
    var r := RequestFor(PROMOTED);
    PromotionIsClean();
    CleanPlan(ENV, EMPTY, r);
    UploadKeys(ENV, r);
    var objects, cs := UploadList(ENV, r), Affected(PROMOTED);
    PlanPrefix(r, objects, cs, r.notes.value, PlatformsFor(ENV, r), 6);
    ExecuteConcat(EMPTY, Puts(objects), Moves(ENV, r, cs[..1]));
    PointersAfter(Execute(EMPTY, Puts(objects)), r, cs[..1], r.notes.value, PlatformsFor(ENV, r));
    PutsStore(EMPTY, objects);
    if Key(OVERTAKEN, name) in Interrupted().objects {
      var o :| o in objects && o.key == Key(OVERTAKEN, name);
      var i :| 0 <= i < 5 && objects[i] == o;
      KeysAreDistinct(OVERTAKEN, PROMOTED, name, UploadName(PROMOTED, i));
    }
  }

  lemma {:induction false} OvertakenPublishes()
    ensures PlanRun(ENV, Interrupted(), RequestFor(OVERTAKEN)).error.None?
  {
    hide VersionString, PlanRun, Healthy, Artifacts, GoodArtifacts, Key, Execute, Parse, Interrupted, StoppedAt, Clean;
    var q, mid := RequestFor(OVERTAKEN), Interrupted();
    PromotionIsClean();
    InterruptedIsStopped();
    StaysReadable(ENV, EMPTY, RequestFor(PROMOTED), 6, mid);
    PointersStoppedAt(ENV, EMPTY, RequestFor(PROMOTED), 6, mid, Beta);
    PointersStoppedAt(ENV, EMPTY, RequestFor(PROMOTED), 6, mid, Dev);
    RequestIsHealthy(OVERTAKEN);
    HealthyIsBuilt(ENV, q);
    HealthyIsGood(ENV, q);
    forall i | 0 <= i < 5 ensures Key(OVERTAKEN, UploadName(OVERTAKEN, i)) !in mid.objects {
      OvertakenKeysAreFree(UploadName(OVERTAKEN, i));
    }
    assert Ready(ENV, mid, q);
    FreshSucceedsExactly(ENV, mid, q);
  }

  /** From an empty bucket: 1.0.0 dies after its stable pointer, 1.0.0-beta.1 completes, and stable is ahead of beta. */
  lemma {:induction false} CascadeCanBreak()
    ensures var other := RequestFor(OVERTAKEN);
            var final := AfterAll(ENV, EMPTY, [Attempt(RequestFor(PROMOTED), 6), Attempt(other, 100)]);
            Ordered(EMPTY) && At(final, Stable) == Some(PROMOTED) && At(final, Beta) == Some(OVERTAKEN)
                && !Ordered(final)
  {
    hide VersionString, PlanRun, Artifacts, GoodArtifacts, Key, Execute, Parse, StoppedAt, Clean, At, Sound;
    var r, other, mid := RequestFor(PROMOTED), RequestFor(OVERTAKEN), Interrupted();
    PromotionIsClean();
    InterruptedIsStopped();
    AttemptKeepsSound(ENV, EMPTY, Attempt(r, 6));
    OvertakenPublishes();
    StableMoved();
    CompletedPointers(ENV, mid, other, Stable);
    CompletedPointers(ENV, mid, other, Beta);
    var attempts := [Attempt(r, 6), Attempt(other, 100)];
    assert attempts[1..] == [Attempt(other, 100)] && attempts[1..][1..] == [];
    PlanIsShort(ENV, mid, other);
    var final := AfterAttempt(ENV, mid, Attempt(other, 100));
    assert AfterAll(ENV, EMPTY, attempts) == AfterAll(ENV, mid, attempts[1..]) == AfterAll(ENV, final, []) == final;
    assert final == Execute(mid, PlanRun(ENV, mid, other).writes);
    AbandonedPromotion(ENV, EMPTY, Attempt(r, 6), other);
  }

  lemma {:induction false} StableMoved()
    ensures At(Interrupted(), Stable) == Some(PROMOTED)
  {
    assert Affected(PROMOTED)[..1] == [Stable];
    hide VersionString, PlanRun, Artifacts, GoodArtifacts, Key, Execute, Parse, StoppedAt, Clean, Interrupted;
    PromotionIsClean();
    InterruptedIsStopped();
    PointersStoppedAt(ENV, EMPTY, RequestFor(PROMOTED), 6, Interrupted(), Stable);
    ParsePrinted(PROMOTED);
  }

  lemma {:induction false} PlanIsShort(env: Environment, b: Bucket, r: Request)
    requires Sound(env, b) && WellFormed(r.version) && PlanRun(env, b, r).error.None? && r.mode == Fresh(false)
    ensures |PlanRun(env, b, r).writes| <= 100
  {
    hide VersionString, PlanRun, Artifacts, GoodArtifacts, Key, Execute, Parse, Readable, Advances;
    CleanPlan(env, b, r);
  }
}
