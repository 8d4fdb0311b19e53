/** Crash and resume together do what one uninterrupted publish does. */
module ReleaseResume {
  import opened Text
  import opened Versions
  import opened Release
  import opened ReleaseSafety
  import opened ReleaseRuns

  /** A pointer without its publication time, the one field a resume does not reproduce. */
  function Undated(m: Manifest): Manifest { m.(pubDate := 0) }

  predicate SameUpToDate(x: Bucket, y: Bucket) {
    && x.objects == y.objects
    && forall c :: (c in x.manifests <==> c in y.manifests)
                   && (c in x.manifests ==> Undated(x.manifests[c]) == Undated(y.manifests[c]))
  }

  predicate SameWrite(x: Write, y: Write) {
    match (x, y)
    case (PutObject(k1, b1), PutObject(k2, b2)) => k1 == k2 && b1 == b2
    case (PutManifest(c1, m1), PutManifest(c2, m2)) => c1 == c2 && Undated(m1) == Undated(m2)
    case _ => false
  }

  predicate SameWrites(xs: seq<Write>, ys: seq<Write>) {
    |xs| == |ys| && forall i :: 0 <= i < |xs| ==> SameWrite(xs[i], ys[i])
  }

  lemma {:induction false} SameWritesSameBucket(x: Bucket, y: Bucket, xs: seq<Write>, ys: seq<Write>)
    requires SameUpToDate(x, y) && SameWrites(xs, ys)
    ensures SameUpToDate(Execute(x, xs), Execute(y, ys))
    decreases |xs|
  {
    if xs != [] {
      SameWritesSameBucket(x, y, xs[..|xs| - 1], ys[..|ys| - 1]);
    }
  }

  /** The same inputs, resumed at another time. */
  function Again(r: Request, pubDate: int): Request { r.(mode := Resume, pubDate := pubDate) }

  /** A non-force publish that nothing would stop. */
  predicate Clean(env: Environment, b: Bucket, r: Request) {
    r.mode == Fresh(false) && WellFormed(r.version) && PlanRun(env, b, r).error.None?
  }

  /** `mid` is what `r` leaves when it stops after k PUTs, up to publication times. */
  predicate StoppedAt(env: Environment, b: Bucket, r: Request, k: nat, mid: Bucket) {
    k <= |PlanRun(env, b, r).writes| && SameUpToDate(mid, Execute(b, PlanRun(env, b, r).writes[..k]))
  }

  // ---- What a clean publish writes ----

  lemma {:induction false} FreshUploadsAll(env: Environment, stored: map<string, string>, objects: seq<Object>)
    requires Pending(env, stored, objects, Fresh(false)).Ok?
    ensures Pending(env, stored, objects, Fresh(false)).value == objects
    ensures forall i :: 0 <= i < |objects| ==> objects[i].key !in stored
  {
    if objects != [] {
      var n := |objects| - 1;
      FreshUploadsAll(env, stored, objects[..n]);
      assert objects == objects[..n] + [objects[n]];
    }
  }

  lemma {:induction false} FreshMovesAll(r: Request, cs: seq<Channel>, current: Manifests)
    requires r.mode.Fresh?
    ensures Unpublished(r, cs, current) == cs
    decreases |cs|
  {
    if cs != [] {
      FreshMovesAll(r, cs[1..], current);
    }
  }

  lemma {:induction false} CleanPlan(env: Environment, b: Bucket, r: Request)
    requires Clean(env, b, r)
    ensures Readable(env, b.manifests) && Intact(r) && r.notes.Some?
    ensures Advances(r.version, b.manifests) && GoodArtifacts(env, r.version, Artifacts(env, r.version, r.disk))
              && r.gates
    ensures forall i :: 0 <= i < |UploadList(env, r)| ==> UploadList(env, r)[i].key !in b.objects
    ensures PlanRun(env, b, r).writes == Puts(UploadList(env, r)) + Moves(env, r, Affected(r.version))
  {
    var pending, cs := PlanShape(env, b, r);
    hide PlanRun, Pending, Artifacts, GoodArtifacts, Unpublished, Parse;
    FreshUploadsAll(env, b.objects, UploadList(env, r));
    FreshMovesAll(r, Affected(r.version), b.manifests);
    GatesPassed(env, b, r);
  }

  lemma GatesPassed(env: Environment, b: Bucket, r: Request)
    requires PlanRun(env, b, r).error.None?
    ensures r.gates
  {
  }

  // ---- What a resume finds and decides ----

  lemma {:induction false} StoredPrefix(b: Bucket, objects: seq<Object>, j: nat)
    requires DistinctKeys(objects) && j <= |objects|
    requires forall i :: 0 <= i < |objects| ==> objects[i].key !in b.objects
    ensures var stored := Execute(b, Puts(objects[..j])).objects;
            && (forall i :: 0 <= i < j ==> objects[i].key in stored && stored[objects[i].key] == objects[i].body)
            && (forall i :: j <= i < |objects| ==> objects[i].key !in stored)
  {
    PutsStore(b, objects[..j]);
    forall i | 0 <= i < j ensures objects[i] in objects[..j] {
      assert objects[..j][i] == objects[i];
    }
  }

  /** A resume uploads exactly the objects that are not there yet. */
  lemma {:induction false} PendingIsRest(
    env: Environment, stored: map<string, string>, objects: seq<Object>, j: nat, n: nat
  )
    requires j <= |objects| && n <= |objects|
    requires forall i :: 0 <= i < j ==> objects[i].key in stored && stored[objects[i].key] == objects[i].body
    requires forall i :: j <= i < |objects| ==> objects[i].key !in stored
    ensures Pending(env, stored, objects[..n], Resume) == Ok(if n <= j then [] else objects[j..n])
  {
    if n > 0 {
      assert objects[..n][..n - 1] == objects[..n - 1];
      PendingIsRest(env, stored, objects, j, n - 1);
      if n > j {
        assert objects[j..n] == objects[j..n - 1] + [objects[n - 1]];
      }
    }
  }

  lemma {:induction false} UnpublishedIsRest(r: Request, cs: seq<Channel>, current: Manifests, n: nat)
    requires n <= |cs|
    requires forall i :: 0 <= i < n ==> Skipped(r, cs[i], current)
    requires forall i :: n <= i < |cs| ==> !Skipped(r, cs[i], current)
    ensures Unpublished(r, cs, current) == cs[n..]
    decreases |cs|
  {
    hide Skipped;
    if cs != [] {
      UnpublishedIsRest(r, cs[1..], current, if n == 0 then 0 else n - 1);
    }
  }

  lemma {:induction false} PublishedParses(v: Version, c: Channel, ms: Manifests)
    requires WellFormed(v) && AlreadyPublished(v, c, ms)
    ensures Parse(ms[c].version) == Some(v)
  {
    hide Match, FromGroups, VersionString, TrimSpace;
    ParsePrinted(v);
  }

  lemma {:induction false} AllClear(
    v: Version, cs: seq<Channel>, ms: Manifests, notes: Notes, platforms: map<string, Platform>
  )
    requires forall c :: c in cs ==> ResumeVerdict(v, c, ms, notes, platforms).None?
    ensures FirstVerdict(v, cs, ms, notes, platforms).None?
    decreases |cs|
  {
    hide ResumeVerdict;
    if cs != [] {
      AllClear(v, cs[1..], ms, notes, platforms);
    }
  }

  /** The pointer the publish itself wrote is recognised; any other affected one is older. */
  lemma {:induction false} PointerVerdict(env: Environment, b: Bucket, r: Request, q: Request, mid: Bucket, c: Channel,
                                          moved: bool, notes: Notes, platforms: map<string, Platform>)
    requires WellFormed(r.version) && q.mode.Resume? && q.version == r.version && c in Affected(r.version)
    requires Advances(r.version, b.manifests)
    requires moved ==> c in mid.manifests && Undated(mid.manifests[c]) == Undated(ManifestFor(r, c, notes, platforms))
    requires !moved ==> (c in mid.manifests <==> c in b.manifests)
    requires !moved && c in mid.manifests ==> Undated(mid.manifests[c]) == Undated(b.manifests[c])
    ensures ResumeVerdict(q.version, c, mid.manifests, notes, platforms).None?
    ensures Skipped(q, c, mid.manifests) <==> moved
  {
    hide Parse, VersionString, TrimSpace;
    var v := r.version;
    ParsePrinted(v);
    PromotionOrderIsTotal(v, v, v);
    if moved {
      assert mid.manifests[c].version == VersionString(v);
    } else if Skipped(q, c, mid.manifests) {
      PublishedParses(v, c, mid.manifests);
    }
  }

  // ---- The bucket an interrupted publish leaves ----

  function ObjectsDone(k: nat): nat { if k < 5 then k else 5 }

  function ChannelsDone(k: nat): nat { if k < 5 then 0 else k - 5 }

  lemma {:induction false} ObjectsMidRun(env: Environment, b: Bucket, r: Request, k: nat, mid: Bucket)
    requires Clean(env, b, r) && StoppedAt(env, b, r, k, mid)
    ensures Built(r.version, r.disk)
    ensures var objects, j := UploadList(env, r), ObjectsDone(k);
            && |objects| == 5
            && (forall i :: 0 <= i < j ==>
                 objects[i].key in mid.objects && mid.objects[objects[i].key] == objects[i].body)
            && (forall i :: j <= i < 5 ==> objects[i].key !in mid.objects)
  {
    hide PlanRun, Artifacts, GoodArtifacts, Parse, VersionString, Readable, Advances, Execute;
    CleanPlan(env, b, r);
    UploadKeys(env, r);
    var objects, cs := UploadList(env, r), Affected(r.version);
    StoredPrefix(b, objects, ObjectsDone(k));
    assert objects[..5] == objects;
    PlanPrefix(r, objects, cs, r.notes.value, PlatformsFor(env, r), k);
    if k <= 5 {
      assert Puts(objects)[..k] == Puts(objects[..k]);
    } else {
      var moved := cs[..k - 5];
      ExecuteConcat(b, Puts(objects), Moves(env, r, moved));
      PointersAfter(Execute(b, Puts(objects)), r, moved, r.notes.value, PlatformsFor(env, r));
    }
  }

  lemma {:induction false} PointersStoppedAt(env: Environment, b: Bucket, r: Request, k: nat, mid: Bucket, c: Channel)
    requires Clean(env, b, r) && StoppedAt(env, b, r, k, mid)
    ensures Built(r.version, r.disk) && r.notes.Some? && ChannelsDone(k) <= |Affected(r.version)|
    ensures c in Affected(r.version)[..ChannelsDone(k)] ==>
              c in mid.manifests
                  && Undated(mid.manifests[c]) == Undated(ManifestFor(r, c, r.notes.value, PlatformsFor(env, r)))
    ensures c !in Affected(r.version)[..ChannelsDone(k)] ==>
              && (c in mid.manifests <==> c in b.manifests)
              && (c in mid.manifests ==> Undated(mid.manifests[c]) == Undated(b.manifests[c]))
  {
    hide PlanRun, Artifacts, GoodArtifacts, Parse, VersionString, Readable, Advances, Execute;
    CleanPlan(env, b, r);
    UploadKeys(env, r);
    var objects, cs := UploadList(env, r), Affected(r.version);
    PlanPrefix(r, objects, cs, r.notes.value, PlatformsFor(env, r), k);
    if k <= 5 {
      assert Puts(objects)[..k] == Puts(objects[..k]);
      PutsStore(b, objects[..k]);
    } else {
      var moved := cs[..k - 5];
      PutsStore(b, objects);
      ExecuteConcat(b, Puts(objects), Moves(env, r, moved));
      PointersAfter(Execute(b, Puts(objects)), r, moved, r.notes.value, PlatformsFor(env, r));
    }
  }

  lemma {:induction false} StaysReadable(env: Environment, b: Bucket, r: Request, k: nat, mid: Bucket)
    requires Clean(env, b, r) && StoppedAt(env, b, r, k, mid)
    ensures Readable(env, mid.manifests)
  {
    hide PlanRun, Artifacts, Parse, VersionString, Advances, Execute, ValidPlatforms;
    CleanPlan(env, b, r);
    forall c | c in mid.manifests ensures ValidManifest(env, c, mid.manifests[c]) {
      PointersStoppedAt(env, b, r, k, mid, c);
      if c in Affected(r.version)[..ChannelsDone(k)] {
        OwnManifestIsValid(env, r, c);
      }
    }
  }

  lemma {:induction false} OwnManifestIsValid(env: Environment, r: Request, c: Channel)
    requires WellFormed(r.version) && Built(r.version, r.disk) && r.notes.Some?
    requires GoodArtifacts(env, r.version, Artifacts(env, r.version, r.disk))
    ensures ValidManifest(env, c, ManifestFor(r, c, r.notes.value, PlatformsFor(env, r)))
  {
    hide Parse, VersionString, ValidPlatforms;
    ParsePrinted(r.version);
    VersionStringIsTight(r.version);
    var artifacts := Artifacts(env, r.version, r.disk);
    MacIsListed(env, r.version, artifacts, 0);
    assert artifacts[0].platform == MAC;
  }

  /** The remaining writes: exactly those the interrupted publish did not get to. */
  lemma {:induction false} ResumePlan(env: Environment, b: Bucket, r: Request, k: nat, mid: Bucket, pubDate: int)
    requires Clean(env, b, r) && StoppedAt(env, b, r, k, mid)
    ensures PlanRun(env, mid, Again(r, pubDate)).error.None?
    ensures SameWrites(PlanRun(env, mid, Again(r, pubDate)).writes, PlanRun(env, b, r).writes[k..])
  {
    hide Artifacts, GoodArtifacts, Parse, VersionString, Readable, Advances, Execute, PlanFresh, Pending, FirstVerdict,
        Unpublished;
    CleanPlan(env, b, r);
    var q, objects, cs := Again(r, pubDate), UploadList(env, r), Affected(r.version);
    StaysReadable(env, b, r, k, mid);
    ObjectsMidRun(env, b, r, k, mid);
    PointersStoppedAt(env, b, r, k, mid, Dev);
    PendingIsRest(env, mid.objects, objects, ObjectsDone(k), 5);
    assert objects[..5] == objects && objects[ObjectsDone(k)..5] == objects[ObjectsDone(k)..];
    ResumeSeesPointers(env, b, r, k, mid, pubDate);
    var left := Puts(objects[ObjectsDone(k)..]) + Moves(env, q, cs[ChannelsDone(k)..]);
    assert PlanRun(env, mid, q) == Plan(left, None);
    RestOfPlan(env, r, q, objects, k);
  }

  lemma {:induction false} ResumeSeesPointers(
    env: Environment, b: Bucket, r: Request, k: nat, mid: Bucket, pubDate: int
  )
    requires Clean(env, b, r) && StoppedAt(env, b, r, k, mid)
    ensures Built(r.version, r.disk) && r.notes.Some? && ChannelsDone(k) <= |Affected(r.version)|
    ensures FirstVerdict(r.version, Affected(r.version), mid.manifests, r.notes.value, PlatformsFor(env, r)).None?
    ensures Unpublished(Again(r, pubDate), Affected(r.version), mid.manifests) == Affected(r.version)[ChannelsDone(k)..]
  {
    hide PlanRun, Artifacts, GoodArtifacts, Parse, VersionString, Readable, Execute, PlatformsFor, StoppedAt,
        FirstVerdict;
    var q, cs, n := Again(r, pubDate), Affected(r.version), ChannelsDone(k);
    CleanPlan(env, b, r);
    PointersStoppedAt(env, b, r, k, mid, Dev);
    forall c | c in cs
      ensures ResumeVerdict(r.version, c, mid.manifests, r.notes.value, PlatformsFor(env, r)).None?
      ensures Skipped(q, c, mid.manifests) <==> c in cs[..n]
    {
      PointersStoppedAt(env, b, r, k, mid, c);
      PointerVerdict(env, b, r, q, mid, c, c in cs[..n], r.notes.value, PlatformsFor(env, r));
    }
    AllClear(r.version, cs, mid.manifests, r.notes.value, PlatformsFor(env, r));
    forall i | 0 <= i < |cs| ensures Skipped(q, cs[i], mid.manifests) <==> i < n {
      assert i < n ==> cs[..n][i] == cs[i];
    }
    UnpublishedIsRest(q, cs, mid.manifests, n);
  }

  lemma {:induction false} RestOfPlan(env: Environment, r: Request, q: Request, objects: seq<Object>, k: nat)
    requires Built(r.version, r.disk) && r.notes.Some? && q == Again(r, q.pubDate)
    requires |objects| == 5 && k <= 5 + |Affected(r.version)|
    ensures SameWrites(Puts(objects[ObjectsDone(k)..]) + Moves(env, q, Affected(r.version)[ChannelsDone(k)..]),
                       (Puts(objects) + Moves(env, r, Affected(r.version)))[k..])
  {
    hide PlatformsOf, Artifacts, VersionString, Affected, SameWrite;
    var cs, n := Affected(r.version), ChannelsDone(k);
    var left, all := Puts(objects[ObjectsDone(k)..]) + Moves(env, q, cs[n..]), Puts(objects) + Moves(env, r, cs);
    forall i | 0 <= i < |left| ensures SameWrite(left[i], all[k..][i]) {
      assert all[k..][i] == all[k + i];
      if i < 5 - ObjectsDone(k) {
        var o := objects[k + i];
        assert left[i] == PutObject(o.key, o.body) && all[k + i] == PutObject(o.key, o.body);
        SameObjectWrite(o);
      } else {
        var c := cs[k + i - 5];
        assert left[i] == PutManifest(c, ManifestFor(q, c, r.notes.value, PlatformsFor(env, r)));
        assert all[k + i] == PutManifest(c, ManifestFor(r, c, r.notes.value, PlatformsFor(env, r)));
        SameManifestWrite(r, q, c, r.notes.value, PlatformsFor(env, r));
      }
    }
  }

  lemma SameObjectWrite(o: Object)
    ensures SameWrite(PutObject(o.key, o.body), PutObject(o.key, o.body))
  {
  }

  lemma SameManifestWrite(r: Request, q: Request, c: Channel, notes: Notes, platforms: map<string, Platform>)
    requires q.version == r.version
    ensures SameWrite(PutManifest(c, ManifestFor(q, c, notes, platforms)),
              PutManifest(c, ManifestFor(r, c, notes, platforms)))
  {
  }

  // ---- The theorems ----

  /** Any number of further interrupted resumes: each picks up where the last one stopped. */
  function Reached(total: nat, k: nat, stops: seq<(int, nat)>): nat
    requires k <= total
    decreases |stops|
  {
    if stops == [] then k
    else Reached(total, if k + stops[0].1 < total then k + stops[0].1 else total, stops[1..])
  }

  function ResumesOf(r: Request, stops: seq<(int, nat)>): seq<Attempt> {
    seq(|stops|, i requires 0 <= i < |stops| => Attempt(Again(r, stops[i].0), stops[i].1))
  }

  lemma {:induction false} ResumeAdvances(
    env: Environment, b: Bucket, r: Request, k: nat, mid: Bucket, pubDate: int, stop: nat
  )
    requires Clean(env, b, r) && StoppedAt(env, b, r, k, mid)
    ensures var total := |PlanRun(env, b, r).writes|;
            StoppedAt(env, b, r, if k + stop < total then k + stop else total,
                      AfterAttempt(env, mid, Attempt(Again(r, pubDate), stop)))
  {
    hide PlanRun, Clean, Execute, SameUpToDate;
    var ws := PlanRun(env, b, r).writes;
    var a := Attempt(Again(r, pubDate), stop);
    ResumePlan(env, b, r, k, mid, pubDate);
    var done := Done(env, mid, a);
    var next := if k + stop < |ws| then k + stop else |ws|;
    assert SameWrites(done, ws[k..next]);
    SameWritesSameBucket(mid, Execute(b, ws[..k]), done, ws[k..next]);
    ExecuteConcat(b, ws[..k], ws[k..next]);
    assert ws[..k] + ws[k..next] == ws[..next];
  }

  lemma {:induction false} ResumesAdvance(
    env: Environment, b: Bucket, r: Request, k: nat, mid: Bucket, stops: seq<(int, nat)>
  )
    requires Clean(env, b, r) && StoppedAt(env, b, r, k, mid)
    ensures StoppedAt(env, b, r, Reached(|PlanRun(env, b, r).writes|, k, stops),
              AfterAll(env, mid, ResumesOf(r, stops)))
    decreases |stops|
  {
    hide PlanRun, Clean, StoppedAt, AfterAttempt;
    assert k <= |PlanRun(env, b, r).writes| by { WithinPlan(env, b, r, k, mid); }
    if stops != [] {
      var (pubDate, stop) := stops[0];
      ResumeAdvances(env, b, r, k, mid, pubDate, stop);
      var total := |PlanRun(env, b, r).writes|;
      var next := AfterAttempt(env, mid, Attempt(Again(r, pubDate), stop));
      assert ResumesOf(r, stops)[1..] == ResumesOf(r, stops[1..]);
      ResumesAdvance(env, b, r, if k + stop < total then k + stop else total, next, stops[1..]);
    }
  }

  lemma WithinPlan(env: Environment, b: Bucket, r: Request, k: nat, mid: Bucket)
    requires StoppedAt(env, b, r, k, mid)
    ensures k <= |PlanRun(env, b, r).writes|
  {
  }

  /**
   * A clean publish that dies after k PUTs, followed by any number of resumes that die too and one that does not,
   * never errors and leaves what the uninterrupted publish leaves, publication times aside. A further resume writes
   * nothing.
   */
  lemma {:induction false} CrashThenResumeIsPublish(
    env: Environment, b: Bucket, r: Request, k: nat, stops: seq<(int, nat)>, pubDate: int
  )
    requires Clean(env, b, r) && k <= |PlanRun(env, b, r).writes|
    ensures var ws := PlanRun(env, b, r).writes;
            var crashed := AfterAll(env, Execute(b, ws[..k]), ResumesOf(r, stops));
            var last := PlanRun(env, crashed, Again(r, pubDate));
            var final := Execute(crashed, last.writes);
            && last.error.None?
            && SameUpToDate(final, Execute(b, ws))
            && forall later :: PlanRun(env, final, Again(r, later)) == Plan([], None)
  {
    hide PlanRun, Clean, Execute, AfterAll, SameUpToDate;
    var ws := PlanRun(env, b, r).writes;
    assert StoppedAt(env, b, r, k, Execute(b, ws[..k])) by { SameAsItself(Execute(b, ws[..k])); }
    ResumesAdvance(env, b, r, k, Execute(b, ws[..k]), stops);
    var crashed := AfterAll(env, Execute(b, ws[..k]), ResumesOf(r, stops));
    var reached := Reached(|ws|, k, stops);
    var last := PlanRun(env, crashed, Again(r, pubDate));
    WithinPlan(env, b, r, reached, crashed);
    ResumePlan(env, b, r, reached, crashed, pubDate);
    ResumeAdvances(env, b, r, reached, crashed, pubDate, |ws|);
    assert |last.writes| <= |ws|;
    var final := Execute(crashed, last.writes);
    assert AfterAttempt(env, crashed, Attempt(Again(r, pubDate), |ws|)) == final by {
      assert last.writes[..|last.writes|] == last.writes;
    }
    assert ws[..|ws|] == ws;
    forall later ensures PlanRun(env, final, Again(r, later)) == Plan([], None) {
      ResumePlan(env, b, r, |ws|, final, later);
    }
  }

  lemma SameAsItself(b: Bucket)
    ensures SameUpToDate(b, b)
  {
  }
}
