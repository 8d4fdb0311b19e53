/** Choosing the next version (nextVersion in cmd/release/version.go, releaseVersionForBump in interactive.go). */
module NextVersions {
  import opened Text
  import opened Versions

  predicate AllWellFormed(vs: seq<Version>) { forall i :: 0 <= i < |vs| ==> WellFormed(vs[i]) }

  /** `v` lies strictly above every version of `vs`. */
  predicate AboveAll(v: Version, vs: seq<Version>) { forall i :: 0 <= i < |vs| ==> Below(vs[i], v) }

  /** `v` is the least version of its channel strictly above every version of `vs`. */
  ghost predicate LeastAbove(c: Channel, vs: seq<Version>, v: Version) {
    && WellFormed(v) && v.channel == c && AboveAll(v, vs)
    && forall w :: WellFormed(w) && w.channel == c && AboveAll(w, vs) ==> Compare(v, w) <= 0
  }

  ghost predicate IsTop(vs: seq<Version>, top: Version) {
    top in vs && forall i :: 0 <= i < |vs| ==> Compare(vs[i], top) <= 0
  }

  /** The 64-bit component that must grow to follow `top` on channel `c` is not yet at its maximum. */
  predicate Headroom(c: Channel, top: Version) {
    if Rank(c) > Rank(top.channel) then true
    else if c == top.channel && !c.Stable? then top.number < MAX_INT
    else top.base.patch < MAX_INT
  }

  ghost predicate HeadroomAbove(c: Channel, vs: seq<Version>) {
    forall top :: IsTop(vs, top) ==> Headroom(c, top)
  }

  /** The version that follows `top` on channel `c`, with Go's wrapping arithmetic. */
  function Follow(c: Channel, top: Version): Version {
    if Rank(c) > Rank(top.channel) then Version(top.base, c, if c.Stable? then 0 else 1)
    else if c == top.channel && !c.Stable? then Version(top.base, c, Increment(top.number))
    else Version(top.base.(patch := Increment(top.base.patch)), c, if c.Stable? then 0 else 1)
  }

  lemma FollowIsLeast(c: Channel, vs: seq<Version>, top: Version)
    requires AllWellFormed(vs) && IsTop(vs, top) && Headroom(c, top)
    ensures LeastAbove(c, vs, Follow(c, top))
  {
  }

  lemma {:induction false} MatchFails(major: string, minor: string, tail: string)
    requires AllDigits(major) && major != "" && AllDigits(minor) && minor != ""
    requires MatchPatch(major, minor, tail).None?
    ensures Match(Dotted(major, Dotted(minor, tail))).None?
  {
    var s := Dotted(major, Dotted(minor, tail));
    assert s[0] == major[0];
    TagIsStripped(false, s);
    assert "" + s == s;
    DottedIsTaken(major, Dotted(minor, tail));
    DottedIsTaken(minor, tail);
  }

  function WrappedTail(v: Version): string {
    PrintInt(v.base.patch) + SuffixString(v.channel, PrintInt(v.number))
  }

  /** A wrapped component prints with a minus sign, which the parser refuses. */
  lemma {:induction false} WrappedDoesNotParse(c: Channel, top: Version)
    requires WellFormed(top) && !Headroom(c, top)
    ensures Parse(VersionString(Follow(c, top))).None?
  {
    var s := VersionString(Follow(c, top));
    assert Match(s).None? by {
      WrappedTailFails(Decimal(top.base.major), Decimal(top.base.minor), c, top);
      MatchFails(Decimal(top.base.major), Decimal(top.base.minor), WrappedTail(Follow(c, top)));
    }
    WrappedStringIsTight(c, top);
    TrimSpaceKeeps(s);
  }

  lemma {:induction false} WrappedTailFails(major: string, minor: string, c: Channel, top: Version)
    requires WellFormed(top) && !Headroom(c, top)
    ensures MatchPatch(major, minor, WrappedTail(Follow(c, top))).None?
  {
    var v := Follow(c, top);
    var tail := WrappedTail(v);
    if c == top.channel && !c.Stable? {
      var patch, mark, number := Decimal(v.base.patch), "-" + ChannelName(c) + ".", PrintInt(v.number);
      DigitRunIsUnique(patch, mark + number);
      var rest := mark + number;
      assert number[0] == '-';
      assert rest[1] == ChannelName(c)[0];
      assert HasPrefix(rest, "-dev.") ==> rest[1] == 'd';
      assert c.Dev? ==> mark == "-dev.";
      assert rest[|mark|..] == number;
    } else {
      assert tail[0] == '-';
    }
  }

  lemma {:induction false} WrappedStringIsTight(c: Channel, top: Version)
    requires WellFormed(top) && !Headroom(c, top)
    ensures VersionString(Follow(c, top)) != "" && Tight(VersionString(Follow(c, top)))
  {
    hide Decimal, ChannelName, TrimSpace;
    var v := Follow(c, top);
    var s := VersionString(v);
    assert v.base.major >= 0 && s[0] == Decimal(v.base.major)[0];
    assert IsDigit(s[0]);
    var low := if v.channel.Stable? then v.base.patch else v.number;
    assert s[|s| - 1] == PrintInt(low)[|PrintInt(low)| - 1];
    assert IsDigit(s[|s| - 1]);
  }

  /** `nextPrereleaseNumber`. */
  method NextPrereleaseNumber(versions: seq<Version>, c: Channel) returns (n: int)
    requires AllWellFormed(versions)
    ensures exists maximum ::
              && n == Increment(maximum) && maximum >= 0
              && (forall i :: 0 <= i < |versions| && versions[i].channel == c ==> versions[i].number <= maximum)
              && (maximum == 0 ||
                  exists i :: 0 <= i < |versions| && versions[i].channel == c && versions[i].number == maximum)
  {
    var maximum := 0;
    for i := 0 to |versions|
      invariant maximum >= 0
      invariant forall j :: 0 <= j < i && versions[j].channel == c ==> versions[j].number <= maximum
      invariant maximum == 0 || exists j :: 0 <= j < i && versions[j].channel == c && versions[j].number == maximum
    {
      if versions[i].channel == c && versions[i].number > maximum {
        maximum := versions[i].number;
      }
    }
    n := Increment(maximum);
  }

  /** The first loop of `nextVersion`. */
  method HighestBase(versions: seq<Version>) returns (base: Base)
    requires |versions| > 0
    ensures exists j :: 0 <= j < |versions| && versions[j].base == base
    ensures forall j :: 0 <= j < |versions| ==> CompareBase(versions[j].base, base) <= 0
  {
    base := versions[0].base;
    for i := 1 to |versions|
      invariant exists j :: 0 <= j < i && versions[j].base == base
      invariant forall j :: 0 <= j < i ==> CompareBase(versions[j].base, base) <= 0
    {
      if CompareBase(versions[i].base, base) > 0 {
        base := versions[i].base;
      }
    }
  }

  /** The second loop: the versions that share the highest base. */
  method OnBase(versions: seq<Version>, base: Base) returns (existing: seq<Version>)
    ensures forall v :: v in existing <==> v in versions && v.base == base
  {
    existing := [];
    for i := 0 to |versions|
      invariant forall v :: v in existing <==> v in versions[..i] && v.base == base
    {
      assert versions[..i + 1] == versions[..i] + [versions[i]];
      if CompareBase(versions[i].base, base) == 0 {
        existing := existing + [versions[i]];
      }
    }
    assert versions[..|versions|] == versions;
  }

  /** The third loop, for one channel. */
  method HasChannel(versions: seq<Version>, c: Channel) returns (found: bool)
    ensures found <==> exists v :: v in versions && v.channel == c
  {
    found := false;
    for i := 0 to |versions|
      invariant found <==> exists j :: 0 <= j < i && versions[j].channel == c
    {
      found := found || versions[i].channel == c;
    }
  }

  /** The numbering step of `nextVersion` on the versions sharing the highest base, whose own top is `top`. */
  method Numbered(c: Channel, base: Base, existing: seq<Version>, ghost top: Version) returns (next: Version)
    requires AllWellFormed(existing) && forall v :: v in existing ==> v.base == base
    requires |existing| > 0 ==> IsTop(existing, top)
    ensures |existing| > 0 ==> next == Follow(c, top)
    ensures |existing| == 0 ==> next == Version(base, c, if c.Stable? then 0 else 1)
  {
    var hasStable := HasChannel(existing, Stable);
    var hasBeta := HasChannel(existing, Beta);
    var number := if c.Stable? then 0 else 1;
    if hasStable || (c.Dev? && hasBeta) {
      return Version(base.(patch := Increment(base.patch)), c, number);
    }
    if !c.Stable? {
      number := NextPrereleaseNumber(existing, c);
    }
    next := Version(base, c, number);
  }

  /**
   * `nextVersion`: with no versions, 0.1.0 on the channel; otherwise the least version of the channel
   * above all of them. It fails to name one exactly when the component it must raise cannot grow.
   */
  method NextVersion(c: Channel, versions: seq<Version>) returns (s: string)
    requires AllWellFormed(versions)
    ensures |versions| == 0 ==> s == VersionString(Version(Base(0, 1, 0), c, if c.Stable? then 0 else 1))
    ensures |versions| > 0 ==> (Parse(s).Some? <==> HeadroomAbove(c, versions))
    ensures |versions| > 0 && Parse(s).Some? ==>
              LeastAbove(c, versions, Parse(s).value) && s == VersionString(Parse(s).value)
  {
    var base := Base(0, 1, 0);
    if |versions| > 0 {
      base := HighestBase(versions);
    }
    var existing := OnBase(versions, base);
    assert |versions| == 0 ==> |existing| == 0 by {
      assert forall v :: v in existing ==> v in versions;
      assert |existing| > 0 ==> existing[0] in existing;
    }
    ghost var top := Version(base, c, 0);
    if |versions| > 0 {
      top := TopOf(versions, base, existing);
      assert |existing| > 0;
    }
    var next := Numbered(c, base, existing, top);
    s := VersionString(next);
    if |versions| > 0 {
      FollowParses(c, versions, top);
    }
  }

  lemma FollowParses(c: Channel, vs: seq<Version>, top: Version)
    requires AllWellFormed(vs) && IsTop(vs, top)
    ensures var s := VersionString(Follow(c, top));
            && (Parse(s).Some? <==> HeadroomAbove(c, vs))
            && (Parse(s).Some? ==> Parse(s) == Some(Follow(c, top)) && LeastAbove(c, vs, Follow(c, top)))
  {
    TopIsUnique(vs, top);
    if Headroom(c, top) {
      FollowIsLeast(c, vs, top);
      ParsePrinted(Follow(c, top));
    } else {
      WrappedDoesNotParse(c, top);
    }
  }

  lemma TopIsUnique(vs: seq<Version>, top: Version)
    requires IsTop(vs, top)
    ensures forall other :: IsTop(vs, other) ==> other == top
  {
  }

  /** The top version is the highest among those on the highest base. */
  lemma TopOf(vs: seq<Version>, base: Base, existing: seq<Version>) returns (top: Version)
    requires |vs| > 0 && AllWellFormed(vs)
    requires exists j :: 0 <= j < |vs| && vs[j].base == base
    requires forall j :: 0 <= j < |vs| ==> CompareBase(vs[j].base, base) <= 0
    requires forall v :: v in existing <==> v in vs && v.base == base
    ensures IsTop(vs, top) && IsTop(existing, top)
  {
    top := Highest(existing);
    forall i | 0 <= i < |vs| ensures Compare(vs[i], top) <= 0 {
      if vs[i].base == base {
        assert vs[i] in existing;
      }
    }
  }

  lemma Highest(vs: seq<Version>) returns (top: Version)
    requires |vs| > 0
    ensures top in vs && forall v :: v in vs ==> Compare(v, top) <= 0
  {
    top := vs[0];
    for i := 1 to |vs|
      invariant top in vs
      invariant forall j :: 0 <= j < i ==> Compare(vs[j], top) <= 0
    {
      if Compare(vs[i], top) > 0 {
        forall j | 0 <= j < i ensures Compare(vs[j], vs[i]) <= 0 {
          PromotionOrderIsTotal(vs[j], top, vs[i]);
        }
        top := vs[i];
      }
    }
  }

  // ---- Raising the minor or the major part instead ----

  datatype Bump = Patch | Minor | Major

  /** `releaseVersionForBump`. */
  function VersionForBump(candidate: Version, bump: Bump): Version {
    var number := if candidate.channel.Stable? then 0 else 1;
    match bump
    case Patch => candidate
    case Minor => Version(Base(candidate.base.major, Increment(candidate.base.minor), 0), candidate.channel, number)
    case Major => Version(Base(Increment(candidate.base.major), 0, 0), candidate.channel, number)
  }

  /** A bumped candidate keeps its channel and stays above everything the candidate was above, unless a part wraps. */
  lemma {:induction false} BumpStaysAbove(candidate: Version, bump: Bump, vs: seq<Version>)
    requires WellFormed(candidate) && AboveAll(candidate, vs)
    ensures var v := VersionForBump(candidate, bump);
            && v.channel == candidate.channel
            && (WellFormed(v) <==>
                 (bump.Minor? ==> candidate.base.minor < MAX_INT) && (bump.Major? ==> candidate.base.major < MAX_INT))
            && (WellFormed(v) ==> AboveAll(v, vs) && forall w :: w in vs && WellFormed(w) ==>
                 VersionString(v) != VersionString(w))
  {
    var v := VersionForBump(candidate, bump);
    if WellFormed(v) {
      forall i | 0 <= i < |vs| ensures Below(vs[i], v) {
        PromotionOrderIsTotal(vs[i], candidate, v);
      }
      forall w | w in vs && WellFormed(w) ensures VersionString(v) != VersionString(w) {
        if VersionString(v) == VersionString(w) {
          VersionStringIsInjective(v, w);
        }
      }
    }
  }

  /** Past the candidate in the part that is bumped. */
  predicate Past(candidate: Version, bump: Bump, w: Version) {
    match bump
    case Patch => Compare(candidate, w) <= 0
    case Minor =>
      candidate.base.major < w.base.major
      || (candidate.base.major == w.base.major && candidate.base.minor < w.base.minor)
    case Major => candidate.base.major < w.base.major
  }

  /** A bump that does not wrap gives the least version of the channel that is past the candidate in that part. */
  lemma BumpIsLeast(candidate: Version, bump: Bump)
    requires WellFormed(candidate) && WellFormed(VersionForBump(candidate, bump))
    ensures var v := VersionForBump(candidate, bump);
            && Past(candidate, bump, v)
            && forall w :: WellFormed(w) && w.channel == candidate.channel && Past(candidate, bump, w) ==>
                 Compare(v, w) <= 0
  {
    PromotionOrderIsTotal(candidate, candidate, candidate);
  }
}
