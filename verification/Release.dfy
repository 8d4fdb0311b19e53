/**
 * What one `release publish` run decides to write, as a function of the bucket it finds
 * (cmd/release/publish.go, resume.go, manifest.go).
 */
module Release {
  import opened Text
  import opened Versions

  /** The download base URL, the digest of a file's bytes, and `url.Parse` with its scheme and host test. */
  datatype Environment = Environment(base: string, digest: string -> string, urlOk: string -> bool)

  // ---- Manifests and the bucket ----

  /** `platformManifest`; the installer fields are empty where a platform ships no separate installer. */
  datatype Platform = Platform(url: string, sha256: string, size: int,
                               installerUrl: string, installerSha256: string, installerSize: int)

  const NO_PLATFORM := Platform("", "", 0, "", "", 0)

  datatype Manifest = Manifest(channel: string, version: string, pubDate: int,
                               summary: string, notes: string, platforms: map<string, Platform>)

  type Manifests = map<Channel, Manifest>

  /** Release objects by key, and the channel pointers. */
  datatype Bucket = Bucket(objects: map<string, string>, manifests: Manifests)

  /** One PUT. */
  datatype Write = PutObject(key: string, body: string) | PutManifest(channel: Channel, manifest: Manifest)

  function Apply(b: Bucket, w: Write): Bucket {
    match w
    case PutObject(key, body) => b.(objects := b.objects[key := body])
    case PutManifest(c, m) => b.(manifests := b.manifests[c := m])
  }

  /** The bucket after a series of PUTs. */
  function Execute(b: Bucket, ws: seq<Write>): Bucket {
    if ws == [] then b else Apply(Execute(b, ws[..|ws| - 1]), ws[|ws| - 1])
  }

  /** The writes that happen when only the first n succeed. */
  function FirstOf(writes: seq<Write>, n: nat): seq<Write> { if n < |writes| then writes[..n] else writes }

  // ---- Artifacts ----

  datatype Role = Update | Installer | NoRole

  datatype Artifact = Artifact(platform: string, role: Role, name: string, checksum: string, size: int)

  type Disk = map<string, string>

  const MAC := "darwin-universal"
  const SUMS := "SHA256SUMS"
  const LINUX_ARCHES: seq<string> := ["amd64", "arm64"]

  function ZipName(v: Version): string { "Hive-" + VersionString(v) + "-darwin-universal.zip" }
  function DmgName(v: Version): string { "Hive-" + VersionString(v) + "-darwin-universal.dmg" }
  function TarName(v: Version, arch: string): string { "Hive-" + VersionString(v) + "-linux-" + arch + ".tar.gz" }

  function Stamp(env: Environment, disk: Disk, platform: string, role: Role, name: string): Artifact
    requires name in disk
  {
    Artifact(platform, role, name, env.digest(disk[name]), |disk[name]|)
  }

  /** The files of a release: the updater's zip, the installer image and one tarball per Linux architecture. */
  function ReleaseFiles(v: Version): seq<string> {
    [ZipName(v), DmgName(v), TarName(v, "amd64"), TarName(v, "arm64")]
  }

  /** Every file of the release is in desktop/bin. */
  predicate Built(v: Version, disk: Disk) { forall i :: 0 <= i < 4 ==> ReleaseFiles(v)[i] in disk }

  function Artifacts(env: Environment, v: Version, disk: Disk): (a: seq<Artifact>)
    requires Built(v, disk)
    ensures |a| == 4 && forall i :: 0 <= i < 4 ==> a[i].name == ReleaseFiles(v)[i]
  {
    assert forall i :: 0 <= i < 4 ==> ReleaseFiles(v)[i] in disk;
    var files := ReleaseFiles(v);
    assert files[0] in disk && files[1] in disk && files[2] in disk && files[3] in disk;
    [Stamp(env, disk, MAC, Update, files[0]), Stamp(env, disk, MAC, Installer, files[1]),
     Stamp(env, disk, "linux-amd64", Update, files[2]), Stamp(env, disk, "linux-arm64", Update, files[3])]
  }

  /** The text of SHA256SUMS. */
  function Checksums(artifacts: seq<Artifact>): string {
    if artifacts == [] then ""
    else
      var last := artifacts[|artifacts| - 1];
      Checksums(artifacts[..|artifacts| - 1]) + (last.checksum + "  " + last.name + "\n")
  }

  // ---- Objects to upload ----

  datatype Object = Object(key: string, body: string)

  function Prefix(v: Version): string { "desktop/releases/" + VersionString(v) }

  function Key(v: Version, name: string): string { Prefix(v) + "/" + name }

  /** The upload list of `upload`: the artifacts in order, then SHA256SUMS. */
  function ObjectsOf(v: Version, artifacts: seq<Artifact>, disk: Disk): (objects: seq<Object>)
    requires forall a :: a in artifacts ==> a.name in disk
    ensures |objects| == |artifacts| + 1
    ensures forall i :: 0 <= i < |artifacts| ==>
              objects[i] == Object(Key(v, artifacts[i].name), disk[artifacts[i].name])
    ensures objects[|artifacts|] == Object(Key(v, SUMS), Checksums(artifacts))
  {
    seq(|artifacts|, i requires 0 <= i < |artifacts| => Object(Key(v, artifacts[i].name), disk[artifacts[i].name]))
    + [Object(Key(v, SUMS), Checksums(artifacts))]
  }

  datatype Mode = Fresh(force: bool) | Resume

  datatype Error = GateFailed | UnusableArtifact | BadManifest | NotAdvancing | OlderThanManifest | ConflictingMetadata
                 | ObjectDiffers | ObjectExists | BadArtifact | NoNotes | PutFailed

  datatype Result<T> = Ok(value: T) | Err(error: Error)

  datatype Action = Upload | Reuse

  /** `chooseR2UploadAction`. */
  function ChooseAction(exists_: bool, matches: bool, mode: Mode): Result<Action> {
    if !exists_ || mode == Fresh(true) then Ok(Upload)
    else if mode.Resume? && matches then Ok(Reuse)
    else if mode.Resume? then Err(ObjectDiffers)
    else Err(ObjectExists)
  }

  /** `r2ObjectMatches`: same checksum and same size. */
  predicate SameFile(env: Environment, remote: string, local: string) {
    env.digest(remote) == env.digest(local) && |remote| == |local|
  }

  function Decide(env: Environment, objects: map<string, string>, o: Object, mode: Mode): Result<Action> {
    ChooseAction(o.key in objects, o.key in objects && mode.Resume? && SameFile(env, objects[o.key], o.body), mode)
  }

  /** Every action is decided before the first PUT; the first refusal ends the run. */
  function Pending(
    env: Environment, stored: map<string, string>, objects: seq<Object>, mode: Mode
  ): Result<seq<Object>> {
    if objects == [] then Ok([])
    else
      match Pending(env, stored, objects[..|objects| - 1], mode)
      case Err(e) => Err(e)
      case Ok(before) =>
        var last := objects[|objects| - 1];
        match Decide(env, stored, last, mode)
        case Err(e) => Err(e)
        case Ok(Upload) => Ok(before + [last])
        case Ok(Reuse) => Ok(before)
  }

  function Puts(objects: seq<Object>): (ws: seq<Write>)
    ensures |ws| == |objects|
    ensures forall i :: 0 <= i < |ws| ==> ws[i] == PutObject(objects[i].key, objects[i].body)
  {
    seq(|objects|, i requires 0 <= i < |objects| => PutObject(objects[i].key, objects[i].body))
  }

  // ---- Manifest metadata ----

  predicate IsHex(c: char) { '0' <= c <= '9' || 'a' <= c <= 'f' || 'A' <= c <= 'F' }

  /** The hex spelling of a 32-byte digest. */
  predicate IsSha256(s: string) { |s| == 64 && forall i :: 0 <= i < 64 ==> IsHex(s[i]) }

  /** `validateArtifactMetadata`. */
  predicate ValidArtifact(env: Environment, url: string, sha256: string, size: int) {
    url != "" && sha256 != "" && size >= 1 && env.urlOk(url) && IsSha256(sha256)
  }

  predicate HasInstaller(p: Platform) { p.installerUrl != "" || p.installerSha256 != "" || p.installerSize != 0 }

  /** `validatePlatformManifest`. */
  predicate ValidPlatform(env: Environment, p: Platform) {
    && ValidArtifact(env, p.url, p.sha256, p.size)
    && (HasInstaller(p) ==> ValidArtifact(env, p.installerUrl, p.installerSha256, p.installerSize))
  }

  predicate ValidPlatforms(env: Environment, platforms: map<string, Platform>) {
    forall k :: k in platforms ==> ValidPlatform(env, platforms[k])
  }

  function Url(env: Environment, v: Version, name: string): string { env.base + "/" + Key(v, name) }

  function WithArtifact(env: Environment, v: Version, p: Platform, a: Artifact): Platform {
    match a.role
    case Update => p.(url := Url(env, v, a.name), sha256 := a.checksum, size := a.size)
    case Installer => p.(installerUrl := Url(env, v, a.name), installerSha256 := a.checksum, installerSize := a.size)
    case NoRole => p
  }

  function Lookup(platforms: map<string, Platform>, k: string): Platform {
    if k in platforms then platforms[k] else NO_PLATFORM
  }

  /** The fold of `platformManifests`: one entry per platform, the two roles in separate fields. */
  function PlatformsOf(env: Environment, v: Version, artifacts: seq<Artifact>): map<string, Platform> {
    if artifacts == [] then map[]
    else
      var last := artifacts[|artifacts| - 1];
      var before := PlatformsOf(env, v, artifacts[..|artifacts| - 1]);
      before[last.platform := WithArtifact(env, v, Lookup(before, last.platform), last)]
  }

  predicate HasRoles(artifacts: seq<Artifact>) { forall a :: a in artifacts ==> !a.role.NoRole? }

  /** `platformManifests` succeeds. */
  predicate GoodArtifacts(env: Environment, v: Version, artifacts: seq<Artifact>) {
    HasRoles(artifacts) && ValidPlatforms(env, PlatformsOf(env, v, artifacts))
  }

  /** `validateManifest`, with the channel and version tests of `readManifests`. */
  predicate ValidManifest(env: Environment, c: Channel, m: Manifest) {
    && m.version != "" && MAC in m.platforms && ValidPlatforms(env, m.platforms)
    && m.channel == ChannelName(c) && Parse(m.version).Some?
  }

  /** `readManifests` succeeds on this bucket. */
  predicate Readable(env: Environment, manifests: Manifests) {
    forall c :: c in manifests ==> ValidManifest(env, c, manifests[c])
  }

  function VersionOf(m: Manifest): Version
    requires Parse(m.version).Some?
  {
    Parse(m.version).value
  }

  /** `validateManifestAdvancement` passes. */
  predicate Advances(v: Version, manifests: Manifests) {
    forall c :: c in Affected(v) && c in manifests ==>
                  Parse(manifests[c].version).Some? && Compare(v, VersionOf(manifests[c])) > 0
  }

  datatype Notes = Notes(summary: string, body: string)

  predicate SameRelease(c: Channel, m: Manifest, notes: Notes, platforms: map<string, Platform>) {
    m.channel == ChannelName(c) && m.summary == notes.summary && m.notes == notes.body && m.platforms == platforms
  }

  /** What `validateResumeManifests` says of one affected channel. */
  function ResumeVerdict(
    v: Version, c: Channel, manifests: Manifests, notes: Notes, platforms: map<string, Platform>
  ): Option<Error> {
    if c !in manifests then None
    else if Parse(manifests[c].version).None? then Some(BadManifest)
    else
      var order := Compare(v, VersionOf(manifests[c]));
      if order > 0 then None
      else if order < 0 then Some(OlderThanManifest)
      else if SameRelease(c, manifests[c], notes, platforms) then None
      else Some(ConflictingMetadata)
  }

  function FirstVerdict(
    v: Version, cs: seq<Channel>, manifests: Manifests, notes: Notes, platforms: map<string, Platform>
  ): Option<Error> {
    if cs == [] then None
    else
      var verdict := ResumeVerdict(v, cs[0], manifests, notes, platforms);
      if verdict.Some? then verdict else FirstVerdict(v, cs[1..], manifests, notes, platforms)
  }

  /** `manifestAlreadyPublished`. */
  predicate AlreadyPublished(v: Version, c: Channel, manifests: Manifests) {
    c in manifests && TrimSpace(manifests[c].version) == VersionString(v)
  }

  // ---- One run ----

  /**
   * A run: its flags, the files in desktop/bin and which of them fail verification (the app bundle, the disk image, a
   * tarball or its commit stamp), the changelog entry, the clock, and the source and changelog gates.
   */
  datatype Request = Request(mode: Mode, version: Version, disk: Disk, damaged: set<string>, notes: Option<Notes>,
                             pubDate: int, gates: bool)

  /** Every file of the release is there and passes its verification. */
  predicate Intact(r: Request) {
    Built(r.version, r.disk) && forall i :: 0 <= i < 4 ==> ReleaseFiles(r.version)[i] !in r.damaged
  }

  /** The PUTs a run makes when nothing stops it, and how it ends. */
  datatype Plan = Plan(writes: seq<Write>, error: Option<Error>)

  function ManifestFor(r: Request, c: Channel, notes: Notes, platforms: map<string, Platform>): Manifest {
    Manifest(ChannelName(c), VersionString(r.version), r.pubDate, notes.summary, notes.body, platforms)
  }

  predicate Skipped(r: Request, c: Channel, current: Manifests) {
    r.mode.Resume? && AlreadyPublished(r.version, c, current)
  }

  /** The affected channels whose pointer the run still has to move, in cascade order. */
  function Unpublished(r: Request, cs: seq<Channel>, current: Manifests): (left: seq<Channel>)
    ensures forall c :: c in left <==> c in cs && !Skipped(r, c, current)
  {
    if cs == [] then []
    else if Skipped(r, cs[0], current) then Unpublished(r, cs[1..], current)
    else [cs[0]] + Unpublished(r, cs[1..], current)
  }

  function ManifestWrites(
    r: Request, cs: seq<Channel>, notes: Notes, platforms: map<string, Platform>
  ): (ws: seq<Write>)
    ensures |ws| == |cs|
    ensures forall i :: 0 <= i < |ws| ==> ws[i] == PutManifest(cs[i], ManifestFor(r, cs[i], notes, platforms))
  {
    seq(|cs|, i requires 0 <= i < |cs| => PutManifest(cs[i], ManifestFor(r, cs[i], notes, platforms)))
  }

  /** `upload`: decide, put the objects, then move the channel pointers. */
  function PlanUpload(env: Environment, b: Bucket, r: Request): Plan
    requires Built(r.version, r.disk)
  {
    var artifacts := Artifacts(env, r.version, r.disk);
    match Pending(env, b.objects, ObjectsOf(r.version, artifacts, r.disk), r.mode)
    case Err(e) => Plan([], Some(e))
    case Ok(pending) =>
      if !GoodArtifacts(env, r.version, artifacts) then Plan(Puts(pending), Some(BadArtifact))
      else if r.notes.None? then Plan(Puts(pending), Some(NoNotes))
      else
        var platforms := PlatformsOf(env, r.version, artifacts);
        var cs := Unpublished(r, Affected(r.version), b.manifests);
        Plan(Puts(pending) + ManifestWrites(r, cs, r.notes.value, platforms), None)
  }

  /** `publisher.run` without `--resume`: the artifacts first, then source and manifests once more before the upload. */
  function PlanFresh(env: Environment, b: Bucket, r: Request): Plan {
    if !Intact(r) then Plan([], Some(UnusableArtifact))
    else if !r.gates then Plan([], Some(GateFailed))
    else if !Readable(env, b.manifests) then Plan([], Some(BadManifest))
    else if !Advances(r.version, b.manifests) then Plan([], Some(NotAdvancing))
    else PlanUpload(env, b, r)
  }

  function PlanResume(env: Environment, b: Bucket, r: Request): Plan {
    if !Intact(r) then Plan([], Some(UnusableArtifact))
    else if !r.gates then Plan([], Some(GateFailed))
    else if !Readable(env, b.manifests) then Plan([], Some(BadManifest))
    else
      var artifacts := Artifacts(env, r.version, r.disk);
      if !GoodArtifacts(env, r.version, artifacts) then Plan([], Some(BadArtifact))
      else if r.notes.None? then Plan([], Some(NoNotes))
      else
        var verdict := FirstVerdict(r.version, Affected(r.version), b.manifests, r.notes.value,
                                    PlatformsOf(env, r.version, artifacts));
        if verdict.Some? then Plan([], verdict) else PlanUpload(env, b, r)
  }

  /** `publisher.run`. */
  function PlanBuild(env: Environment, b: Bucket, r: Request): Plan {
    if r.mode.Resume? then PlanResume(env, b, r) else PlanFresh(env, b, r)
  }

  /** A whole `release publish`, fresh or `--resume`: the checks at startup, then the run. */
  function PlanRun(env: Environment, b: Bucket, r: Request): Plan {
    if !r.gates then Plan([], Some(GateFailed))
    else if r.mode.Fresh? && !Readable(env, b.manifests) then Plan([], Some(BadManifest))
    else if r.mode.Fresh? && !Advances(r.version, b.manifests) then Plan([], Some(NotAdvancing))
    else PlanBuild(env, b, r)
  }
}
