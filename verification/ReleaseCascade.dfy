/** The promotion cascade: a stable pointer never runs ahead of beta, nor beta ahead of dev. */
module ReleaseCascade {
  import opened Text
  import opened Versions
  import opened Release
  import opened ReleaseSafety
  import opened ReleaseRuns

  predicate AtMost(p: Option<Version>, q: Option<Version>) {
    p.Some? ==> q.Some? && Compare(p.value, q.value) <= 0
  }

  /** Whoever follows a faster channel is offered at least what the slower channels offer. */
  predicate Ordered(b: Bucket) { AtMost(At(b, Stable), At(b, Beta)) && AtMost(At(b, Beta), At(b, Dev)) }

  /** The channels a run of `v` leaves alone are in order among themselves and not ahead of `v`. */
  predicate Restorable(b: Bucket, v: Version) {
    match v.channel
    case Stable => true
    case Beta => AtMost(At(b, Stable), Some(v))
    case Dev => AtMost(At(b, Stable), At(b, Beta)) && AtMost(At(b, Beta), Some(v))
  }

  /** A run that completes leaves every affected channel at its version and the others as they were. */
  lemma {:induction false} CompletedPointers(env: Environment, b: Bucket, r: Request, c: Channel)
    requires Sound(env, b) && WellFormed(r.version) && PlanRun(env, b, r).error.None?
    ensures At(Execute(b, PlanRun(env, b, r).writes), c) == if c in Affected(r.version) then Some(r.version)
              else At(b, c)
  {
    hide PlanRun, Parse, VersionString, Sound, Passed, Unpublished, Execute;
    var ws := PlanRun(env, b, r).writes;
    assert ws[..|ws|] == ws;
    var cs, moved := PointersMidRun(env, b, r, |ws|);
    UnpublishedIsOlder(env, b, r, c);
  }

  /** A completed run ends in cascade order exactly when the channels it does not touch allow it. */
  lemma {:induction false} CompletedRunOrdered(env: Environment, b: Bucket, r: Request)
    requires Sound(env, b) && WellFormed(r.version) && PlanRun(env, b, r).error.None?
    ensures Ordered(Execute(b, PlanRun(env, b, r).writes)) <==> Restorable(b, r.version)
  {
    hide PlanRun, Parse, VersionString, Sound, Execute, At;
    CompletedPointers(env, b, r, Stable);
    CompletedPointers(env, b, r, Beta);
    CompletedPointers(env, b, r, Dev);
    PromotionOrderIsTotal(r.version, r.version, r.version);
  }

  /** From an ordered bucket, a run that passes its checks can always complete in order. */
  lemma {:induction false} OrderedIsRestorable(env: Environment, b: Bucket, r: Request)
    requires Sound(env, b) && WellFormed(r.version) && PlanRun(env, b, r).error.None? && Ordered(b)
    ensures Restorable(b, r.version)
  {
    hide PlanRun, Parse, VersionString, Sound, Passed, Unpublished, Execute, At;
    var cs, moved := PointersMidRun(env, b, r, 0);
    var v := r.version;
    forall c | c in Affected(v) ensures AtMost(At(b, c), Some(v)) {
      UnpublishedIsOlder(env, b, r, c);
      PromotionOrderIsTotal(v, v, v);
    }
    if v.channel.Beta? && At(b, Stable).Some? {
      OrderChains(At(b, Stable).value, At(b, Beta).value, v);
    }
    if v.channel.Dev? && At(b, Beta).Some? {
      OrderChains(At(b, Beta).value, At(b, Dev).value, v);
    }
  }

  lemma OrderChains(x: Version, y: Version, z: Version)
    ensures Compare(x, y) <= 0 && Compare(y, z) <= 0 ==> Compare(x, z) <= 0
  {
  }

  // ---- Histories in which an interrupted promotion is finished before anything else ----

  datatype Phase = Settled | Midway(version: Version)

  predicate MovesPointers(ws: seq<Write>) { exists i :: 0 <= i < |ws| && ws[i].PutManifest? }

  /** A run is midway once a pointer has moved and until a run of the same version completes. */
  function NextPhase(env: Environment, b: Bucket, phase: Phase, a: Attempt): Phase {
    var plan := PlanRun(env, b, a.request);
    if plan.error.None? && |plan.writes| <= a.stop then Settled
    else if MovesPointers(Done(env, b, a)) then Midway(a.request.version)
    else phase
  }

  /** While a promotion is midway the next run resumes it. */
  predicate Tidy(env: Environment, b: Bucket, phase: Phase, attempts: seq<Attempt>)
    decreases |attempts|
  {
    attempts != [] ==>
      && (phase.Midway? ==> attempts[0].request.mode.Resume? && attempts[0].request.version == phase.version)
      && Tidy(env, AfterAttempt(env, b, attempts[0]), NextPhase(env, b, phase, attempts[0]), attempts[1..])
  }

  function LastPhase(env: Environment, b: Bucket, phase: Phase, attempts: seq<Attempt>): Phase
    decreases |attempts|
  {
    if attempts == [] then phase
    else LastPhase(env, AfterAttempt(env, b, attempts[0]), NextPhase(env, b, phase, attempts[0]), attempts[1..])
  }

  predicate InStep(b: Bucket, phase: Phase) {
    if phase.Settled? then Ordered(b) else Restorable(b, phase.version)
  }

  lemma {:induction false} AttemptStaysInStep(env: Environment, b: Bucket, phase: Phase, a: Attempt)
    requires Sound(env, b) && WellFormed(a.request.version) && InStep(b, phase)
    requires phase.Midway? ==> a.request.version == phase.version
    ensures InStep(AfterAttempt(env, b, a), NextPhase(env, b, phase, a))
  {
    hide PlanRun, Parse, VersionString, Sound, Passed, Execute, At, Compare;
    var plan, v := PlanRun(env, b, a.request), a.request.version;
    var ws := plan.writes;
    var k := if a.stop < |ws| then a.stop else |ws|;
    assert ws[..|ws|] == ws;
    if plan.error.None? {
      if phase.Settled? {
        OrderedIsRestorable(env, b, a.request);
      }
      CompletedRunOrdered(env, b, a.request);
    }
    var cs, moved := PointersMidRun(env, b, a.request, k);
    if moved == [] {
      assert forall c :: At(AfterAttempt(env, b, a), c) == At(b, c);
      assert forall i :: 0 <= i < k ==> Done(env, b, a)[i] == ws[i];
    } else {
      forall c | c !in Affected(v) ensures At(AfterAttempt(env, b, a), c) == At(b, c) {
        assert forall m :: m in moved ==> m in cs;
        UnpublishedIsOlder(env, b, a.request, c);
      }
    }
  }

  /**
   * Over every history in which an interrupted promotion is resumed before any other run, every state with no
   * promotion midway is in cascade order.
   */
  lemma {:induction false} TidyHistoriesStayOrdered(env: Environment, b: Bucket, phase: Phase, attempts: seq<Attempt>)
    requires Sound(env, b) && Parsed(attempts) && InStep(b, phase) && Tidy(env, b, phase, attempts)
    ensures InStep(AfterAll(env, b, attempts), LastPhase(env, b, phase, attempts))
    decreases |attempts|
  {
    hide PlanRun, Sound, InStep, AfterAttempt, NextPhase;
    if attempts != [] {
      AttemptStaysInStep(env, b, phase, attempts[0]);
      AttemptKeepsSound(env, b, attempts[0]);
      TidyHistoriesStayOrdered(env, AfterAttempt(env, b, attempts[0]), NextPhase(env, b, phase, attempts[0]),
          attempts[1..]);
    }
  }

  /**
   * Abandoning an interrupted promotion breaks the order: once the stable pointer of `promotion` has moved, a lower
   * beta release that passes its own checks completes with stable ahead of beta.
   */
  lemma {:induction false} AbandonedPromotion(env: Environment, b: Bucket, promotion: Attempt, other: Request)
    requires Sound(env, b) && WellFormed(promotion.request.version) && WellFormed(other.version)
    requires promotion.request.version.channel.Stable? && other.version.channel.Beta?
    requires Below(other.version, promotion.request.version)
    requires At(AfterAttempt(env, b, promotion), Stable) == Some(promotion.request.version)
    requires PlanRun(env, AfterAttempt(env, b, promotion), other).error.None?
    ensures !Ordered(Execute(AfterAttempt(env, b, promotion),
              PlanRun(env, AfterAttempt(env, b, promotion), other).writes))
  {
    hide PlanRun, Parse, VersionString, Sound, Execute, At, AfterAttempt;
    AttemptKeepsSound(env, b, promotion);
    CompletedRunOrdered(env, AfterAttempt(env, b, promotion), other);
    PromotionOrderIsTotal(other.version, promotion.request.version, other.version);
  }
}
