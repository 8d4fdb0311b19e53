/** Whole histories of release runs: any serial mix of fresh publishes, resumes and crashes. */
module ReleaseRuns {
  import opened Collections
  import opened Text
  import opened Versions
  import opened Release
  import opened ReleaseSafety

  /** A run that makes at most `stop` PUTs before it dies, or before a PUT fails. */
  datatype Attempt = Attempt(request: Request, stop: nat)

  function Done(env: Environment, b: Bucket, a: Attempt): seq<Write> {
    FirstOf(PlanRun(env, b, a.request).writes, a.stop)
  }

  function AfterAttempt(env: Environment, b: Bucket, a: Attempt): Bucket { Execute(b, Done(env, b, a)) }

  function AfterAll(env: Environment, b: Bucket, attempts: seq<Attempt>): Bucket
    decreases |attempts|
  {
    if attempts == [] then b else AfterAll(env, AfterAttempt(env, b, attempts[0]), attempts[1..])
  }

  predicate Parsed(attempts: seq<Attempt>) { forall a :: a in attempts ==> WellFormed(a.request.version) }

  lemma AttemptKeepsSound(env: Environment, b: Bucket, a: Attempt)
    requires Sound(env, b) && WellFormed(a.request.version)
    ensures Sound(env, AfterAttempt(env, b, a))
  {
    var ws := PlanRun(env, b, a.request).writes;
    assert ws[..|ws|] == ws;
    EveryPutKeepsSound(env, b, a.request, if a.stop < |ws| then a.stop else |ws|);
  }

  /**
   * Referential integrity over all runs. Because `stop` is arbitrary, the state after every single PUT
   * of every run is one of these states.
   */
  lemma {:induction false} PointersAlwaysBacked(env: Environment, b: Bucket, attempts: seq<Attempt>)
    requires Sound(env, b) && Parsed(attempts)
    ensures Sound(env, AfterAll(env, b, attempts))
    decreases |attempts|
  {
    if attempts != [] {
      AttemptKeepsSound(env, b, attempts[0]);
      PointersAlwaysBacked(env, AfterAttempt(env, b, attempts[0]), attempts[1..]);
    }
  }

  // ---- What a run does to the pointers ----

  /** The version a channel points at. */
  function At(b: Bucket, c: Channel): Option<Version> {
    if c in b.manifests then Parse(b.manifests[c].version) else None
  }

  predicate OlderOrMissing(p: Option<Version>, v: Version) { p.None? || Below(p.value, v) }

  /** On pointers this tool wrote, comparing equal and being already published are the same thing. */
  lemma {:induction false} EqualMeansPublished(env: Environment, b: Bucket, v: Version, c: Channel)
    requires c in b.manifests && PointerSound(env, b.objects, c, b.manifests[c]) && WellFormed(v)
    ensures Compare(v, VersionOf(b.manifests[c])) == 0 <==> AlreadyPublished(v, c, b.manifests)
  {
    hide Parse, VersionString, PlatformsStored;
    var w := VersionOf(b.manifests[c]);
    ParsePrinted(w);
    if AlreadyPublished(v, c, b.manifests) {
      VersionStringIsInjective(v, w);
    }
    PromotionOrderIsTotal(v, w, w);
  }

  lemma {:induction false} NoVerdict(
    v: Version, cs: seq<Channel>, ms: Manifests, notes: Notes, platforms: map<string, Platform>, c: Channel
  )
    requires FirstVerdict(v, cs, ms, notes, platforms).None? && c in cs
    ensures ResumeVerdict(v, c, ms, notes, platforms).None?
    decreases |cs|
  {
    if c != cs[0] {
      NoVerdict(v, cs[1..], ms, notes, platforms, c);
    }
  }

  /**
   * A run past its checks has, on every affected channel, a missing or older pointer to move or its own release in
   * place.
   */
  ghost predicate Passed(env: Environment, b: Bucket, r: Request) {
    && Built(r.version, r.disk) && r.notes.Some? && GoodArtifacts(env, r.version, Artifacts(env, r.version, r.disk))
    && forall c :: c in Affected(r.version) ==>
         if Skipped(r, c, b.manifests)
         then At(b, c) == Some(r.version) && SameRelease(c, b.manifests[c], r.notes.value, PlatformsFor(env, r))
         else OlderOrMissing(At(b, c), r.version)
  }

  lemma {:induction false} FreshPasses(env: Environment, b: Bucket, r: Request, c: Channel)
    requires r.mode.Fresh? && Advances(r.version, b.manifests) && c in Affected(r.version)
    ensures !Skipped(r, c, b.manifests) && OlderOrMissing(At(b, c), r.version)
  {
    hide Parse, VersionString;
    if c in b.manifests {
      PromotionOrderIsTotal(r.version, VersionOf(b.manifests[c]), r.version);
    }
  }

  lemma {:induction false} ResumePasses(
    env: Environment, b: Bucket, r: Request, c: Channel, notes: Notes, platforms: map<string, Platform>
  )
    requires Sound(env, b) && WellFormed(r.version) && r.mode.Resume? && c in Affected(r.version)
    requires FirstVerdict(r.version, Affected(r.version), b.manifests, notes, platforms).None?
    ensures if Skipped(r, c, b.manifests)
            then At(b, c) == Some(r.version) && SameRelease(c, b.manifests[c], notes, platforms)
            else OlderOrMissing(At(b, c), r.version)
  {
    hide Parse, VersionString, FirstVerdict;
    NoVerdict(r.version, Affected(r.version), b.manifests, notes, platforms, c);
    if c in b.manifests {
      assert PointerSound(env, b.objects, c, b.manifests[c]);
      EqualMeansPublished(env, b, r.version, c);
      PromotionOrderIsTotal(r.version, VersionOf(b.manifests[c]), r.version);
    }
  }

  lemma {:induction false} UnpublishedHasNoRepeats(r: Request, cs: seq<Channel>, current: Manifests)
    requires Distinct(cs)
    ensures Distinct(Unpublished(r, cs, current))
    decreases |cs|
  {
    if cs != [] {
      UnpublishedHasNoRepeats(r, cs[1..], current);
      var rest := Unpublished(r, cs[1..], current);
      assert forall i :: 0 <= i < |rest| ==> rest[i] in rest && rest[i] in cs[1..];
    }
  }

  /** The pointer moves of a plan. */
  function Moves(env: Environment, r: Request, cs: seq<Channel>): (ws: seq<Write>)
    requires Built(r.version, r.disk) && r.notes.Some?
  {
    ManifestWrites(r, cs, r.notes.value, PlatformsFor(env, r))
  }

  /**
   * A plan is a list of PUTs of distinct keys, then, if every check passed, the moves of the channels not yet
   * published.
   */
  lemma {:induction false} PlanSummary(
    env: Environment, b: Bucket, r: Request
  ) returns (pending: seq<Object>, cs: seq<Channel>)
    requires Sound(env, b) && WellFormed(r.version)
    ensures DistinctKeys(pending) && Distinct(cs)
    ensures PlanRun(env, b, r).error.Some? ==> cs == [] && PlanRun(env, b, r).writes == Puts(pending)
    ensures PlanRun(env, b, r).error.None? ==>
              && Passed(env, b, r) && Built(r.version, r.disk) && r.notes.Some?
              && cs == Unpublished(r, Affected(r.version), b.manifests)
              && PlanRun(env, b, r).writes == Puts(pending) + Moves(env, r, cs)
  {
    hide PlanRun, Parse, VersionString, FirstVerdict, Sound, Artifacts, GoodArtifacts, Advances, ObjectsOf, Pending;
    if PlanRun(env, b, r).error.Some? && PlanRun(env, b, r).writes == [] {
      pending, cs := [], [];
      return;
    }
    pending, cs := PlanShape(env, b, r);
    UploadKeys(env, r);
    PendingIsDistinct(env, b.objects, UploadList(env, r), r.mode);
    UnpublishedHasNoRepeats(r, Affected(r.version), b.manifests);
    if PlanRun(env, b, r).error.None? {
      forall c | c in Affected(r.version)
        ensures if Skipped(r, c, b.manifests)
                then At(b, c) == Some(r.version) && SameRelease(c, b.manifests[c], r.notes.value, PlatformsFor(env, r))
                else OlderOrMissing(At(b, c), r.version)
      {
        if r.mode.Fresh? {
          FreshPasses(env, b, r, c);
        } else {
          ResumePasses(env, b, r, c, r.notes.value, PlatformsFor(env, r));
        }
      }
    }
  }

  lemma {:induction false} PointersAfter(
    b: Bucket, r: Request, cs: seq<Channel>, notes: Notes, platforms: map<string, Platform>
  )
    ensures var after := Execute(b, ManifestWrites(r, cs, notes, platforms));
            && after.objects == b.objects
            && forall c :: if c in cs then c in after.manifests
                 && after.manifests[c] == ManifestFor(r, c, notes, platforms)
                           else (c in after.manifests <==> c in b.manifests)
                                && (c in b.manifests ==> after.manifests[c] == b.manifests[c])
  {
    hide ManifestFor, ManifestWrites, Execute;
    NoWrites(b, r, notes, platforms);
    if cs != [] {
      var n := |cs| - 1;
      LastMove(b, r, cs, notes, platforms);
      PointersAfter(b, r, cs[..n], notes, platforms);
      assert forall c :: c in cs <==> c in cs[..n] || c == cs[n];
    }
  }

  /** The version every channel points at after `moved` has moved to `v`. */
  ghost predicate MovedTo(b: Bucket, after: Bucket, v: Version, moved: seq<Channel>) {
    forall c :: At(after, c) == if c in moved then Some(v) else At(b, c)
  }

  lemma {:induction false} MovesMove(env: Environment, b: Bucket, r: Request, pending: seq<Object>, moved: seq<Channel>)
    requires DistinctKeys(pending) && WellFormed(r.version)
    requires Built(r.version, r.disk) && r.notes.Some?
    ensures MovedTo(b, Execute(b, Puts(pending) + Moves(env, r, moved)), r.version, moved)
  {
    hide Parse, VersionString, Artifacts, PlatformsFor;
    ExecuteConcat(b, Puts(pending), Moves(env, r, moved));
    PutsStore(b, pending);
    PointersAfter(Execute(b, Puts(pending)), r, moved, r.notes.value, PlatformsFor(env, r));
    ParsePrinted(r.version);
  }

  lemma PutsMoveNothing(b: Bucket, v: Version, pending: seq<Object>)
    requires DistinctKeys(pending)
    ensures MovedTo(b, Execute(b, Puts(pending)), v, [])
  {
    PutsStore(b, pending);
  }

  /**
   * After k PUTs a prefix of the channels to move has moved, and nothing else has changed its pointer.
   * A k-th PUT of a manifest moves the next of them.
   */
  lemma {:induction false} PointersMidRun(
    env: Environment, b: Bucket, r: Request, k: nat
  ) returns (cs: seq<Channel>, moved: seq<Channel>)
    requires Sound(env, b) && WellFormed(r.version) && k <= |PlanRun(env, b, r).writes|
    ensures var plan := PlanRun(env, b, r);
            && MovedTo(b, Execute(b, plan.writes[..k]), r.version, moved)
            && Distinct(cs) && moved <= cs
            && (plan.error.Some? ==> cs == [])
            && (plan.error.None? ==> Passed(env, b, r) && cs == Unpublished(r, Affected(r.version), b.manifests))
            && (k == |plan.writes| ==> moved == cs)
            && (k < |plan.writes| && plan.writes[k].PutManifest? ==>
                  |moved| < |cs| && plan.writes[k].channel == cs[|moved|]
                  && plan.writes[k].manifest.version == VersionString(r.version))
            && (moved == [] <==> forall i :: 0 <= i < k ==> plan.writes[i].PutObject?)
  {
    hide PlanRun, Parse, VersionString, Sound, PlatformsFor, Unpublished, Passed, MovedTo, Execute, Built;
    var pending;
    pending, cs := PlanSummary(env, b, r);
    moved := [];
    if k <= |pending| {
      assert PlanRun(env, b, r).writes[..k] == Puts(pending[..k]);
      PutsMoveNothing(b, r.version, pending[..k]);
    } else {
      moved := cs[..k - |pending|];
      PlanPrefix(r, pending, cs, r.notes.value, PlatformsFor(env, r), k);
      MovesMove(env, b, r, pending, moved);
      assert PlanRun(env, b, r).writes[|pending|].PutManifest?;
    }
  }

  /** The channels a plan moves are affected ones whose pointer is missing or strictly older. */
  lemma {:induction false} UnpublishedIsOlder(env: Environment, b: Bucket, r: Request, c: Channel)
    requires Passed(env, b, r)
    ensures c in Unpublished(r, Affected(r.version), b.manifests)
            <==> c in Affected(r.version) && OlderOrMissing(At(b, c), r.version)
    ensures c in Affected(r.version) && c !in Unpublished(r, Affected(r.version), b.manifests) ==>
              At(b, c) == Some(r.version)
  {
  }

  /** Every manifest PUT strictly raises its channel. */
  lemma {:induction false} EveryMoveRaises(env: Environment, b: Bucket, r: Request, k: nat)
    requires Sound(env, b) && WellFormed(r.version) && k < |PlanRun(env, b, r).writes|
    requires PlanRun(env, b, r).writes[k].PutManifest?
    ensures var w := PlanRun(env, b, r).writes[k];
            && Parse(w.manifest.version) == Some(r.version)
            && OlderOrMissing(At(Execute(b, PlanRun(env, b, r).writes[..k]), w.channel), r.version)
  {
    hide PlanRun, Parse, VersionString, Sound, Passed, Unpublished, Execute;
    var cs, moved := PointersMidRun(env, b, r, k);
    var c := PlanRun(env, b, r).writes[k].channel;
    ParsePrinted(r.version);
    assert c !in moved && c in cs;
    UnpublishedIsOlder(env, b, r, c);
  }

  // ---- Channels over a whole history ----

  predicate NotBehind(before: Option<Version>, after: Option<Version>) {
    before.Some? ==> after.Some? && Compare(after.value, before.value) >= 0
  }

  lemma {:induction false} AttemptDoesNotGoBack(env: Environment, b: Bucket, a: Attempt, c: Channel)
    requires Sound(env, b) && WellFormed(a.request.version)
    ensures NotBehind(At(b, c), At(AfterAttempt(env, b, a), c))
  {
    hide PlanRun, Parse, VersionString, Sound, Passed, Unpublished, Execute;
    var ws := PlanRun(env, b, a.request).writes;
    assert ws[..|ws|] == ws;
    var cs, moved := PointersMidRun(env, b, a.request, if a.stop < |ws| then a.stop else |ws|);
    if c in moved {
      UnpublishedIsOlder(env, b, a.request, c);
    }
    if At(b, c).Some? {
      PromotionOrderIsTotal(At(b, c).value, a.request.version, a.request.version);
      PromotionOrderIsTotal(At(b, c).value, At(b, c).value, a.request.version);
    }
  }

  /** No channel ever disappears or goes back, over any history. */
  lemma {:induction false} ChannelsNeverGoBack(env: Environment, b: Bucket, attempts: seq<Attempt>, c: Channel)
    requires Sound(env, b) && Parsed(attempts)
    ensures NotBehind(At(b, c), At(AfterAll(env, b, attempts), c))
    decreases |attempts|
  {
    hide PlanRun, Parse, VersionString, Sound, AfterAttempt;
    if attempts == [] {
      if At(b, c).Some? {
        PromotionOrderIsTotal(At(b, c).value, At(b, c).value, At(b, c).value);
      }
    } else {
      var next := AfterAttempt(env, b, attempts[0]);
      AttemptDoesNotGoBack(env, b, attempts[0], c);
      AttemptKeepsSound(env, b, attempts[0]);
      ChannelsNeverGoBack(env, next, attempts[1..], c);
      if At(b, c).Some? {
        var x, y, z := At(b, c).value, At(next, c).value, At(AfterAll(env, b, attempts), c).value;
        NotBehindIsTransitive(x, y, z);
      }
    }
  }

  lemma NotBehindIsTransitive(x: Version, y: Version, z: Version)
    requires Compare(y, x) >= 0 && Compare(z, y) >= 0
    ensures Compare(z, x) >= 0
  {
  }
}
