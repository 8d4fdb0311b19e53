/** Release versions: parsing, printing and the promotion order (cmd/release/version.go). */
module Versions {
  import opened Text

  /** A version's own channel, which is also the name of a channel pointer. */
  datatype Channel = Dev | Beta | Stable

  datatype Base = Base(major: int, minor: int, patch: int)

  /** `number` is the prerelease number; a stable version carries 0. */
  datatype Version = Version(base: Base, channel: Channel, number: int)

  predicate Representable(n: int) { 0 <= n <= MAX_INT }

  /** The versions the parser can return. */
  predicate WellFormed(v: Version) {
    && Representable(v.base.major) && Representable(v.base.minor) && Representable(v.base.patch)
    && (if v.channel.Stable? then v.number == 0 else 1 <= v.number <= MAX_INT)
  }

  // ---- Printing ----

  function ChannelName(c: Channel): string {
    match c case Dev => "dev" case Beta => "beta" case Stable => "stable"
  }

  function Dotted(digits: string, rest: string): string { digits + ("." + rest) }

  function SuffixString(c: Channel, number: string): string {
    if c.Stable? then "" else "-" + ChannelName(c) + "." + number
  }

  /** `releaseVersion.String`: `%d.%d.%d`, then `-%s.%d` for a prerelease. */
  function VersionString(v: Version): string {
    Dotted(PrintInt(v.base.major),
           Dotted(PrintInt(v.base.minor), PrintInt(v.base.patch) + SuffixString(v.channel, PrintInt(v.number))))
  }

  // ---- Parsing ----

  const TAG_PREFIX := "desktop-v"

  /** The capture groups of the version pattern; `number` is empty for a stable version. */
  datatype Groups = Groups(major: string, minor: string, patch: string, channel: Channel, number: string)

  /** What the pattern's groups may hold. */
  predicate Captured(g: Groups) {
    && AllDigits(g.major) && AllDigits(g.minor) && AllDigits(g.patch) && AllDigits(g.number)
    && g.major != "" && g.minor != "" && g.patch != ""
    && (g.channel.Stable? <==> g.number == "")
  }

  function Suffix(g: Groups): string { SuffixString(g.channel, g.number) }

  /** The text the pattern matches with groups `g`, without the optional tag prefix. */
  function Spelled(g: Groups): string { Dotted(g.major, Dotted(g.minor, g.patch + Suffix(g))) }

  function TakeDigits(s: string): (string, string) {
    (s[..DigitRun(s)], s[DigitRun(s)..])
  }

  function StripTag(s: string): string {
    if HasPrefix(s, TAG_PREFIX) then s[|TAG_PREFIX|..] else s
  }

  function MatchSuffix(major: string, minor: string, patch: string, s: string): Option<Groups> {
    if s == "" then Some(Groups(major, minor, patch, Stable, ""))
    else
      var channel := if HasPrefix(s, "-dev.") then Dev else Beta;
      var mark := "-" + ChannelName(channel) + ".";
      if !HasPrefix(s, mark) then None
      else
        var (number, rest) := TakeDigits(s[|mark|..]);
        if number == "" || rest != "" then None
        else Some(Groups(major, minor, patch, channel, number))
  }

  /** Cuts `s` at a dot that follows a non-empty run of digits. */
  function TakeDotted(s: string): Option<(string, string)> {
    var (digits, rest) := TakeDigits(s);
    if digits == "" || rest == "" || rest[0] != '.' then None else Some((digits, rest[1..]))
  }

  function MatchPatch(major: string, minor: string, s: string): Option<Groups> {
    var (patch, rest) := TakeDigits(s);
    if patch == "" then None else MatchSuffix(major, minor, patch, rest)
  }

  /** The version pattern of version.go, as a matcher. */
  function Match(s: string): (g: Option<Groups>)
    ensures g.Some? ==> Captured(g.value)
  {
    match TakeDotted(StripTag(s))
    case None => None
    case Some((major, s1)) =>
      match TakeDotted(s1)
      case None => None
      case Some((minor, s2)) => MatchPatch(major, minor, s2)
  }

  /** The version its groups denote: each part fits Go's `int` and a prerelease number is at least 1. */
  function FromGroups(g: Groups): Option<Version>
    requires Captured(g)
  {
    match (Atoi(g.major), Atoi(g.minor), Atoi(g.patch), Atoi(g.number))
    case (Some(a), Some(b), Some(c), Some(n)) =>
      if !g.channel.Stable? && n < 1 then None else Some(Version(Base(a, b, c), g.channel, n))
    case _ => None
  }

  /** `parseVersion`. */
  function Parse(value: string): Option<Version> {
    match Match(TrimSpace(value))
    case None => None
    case Some(g) => FromGroups(g)
  }

  /** The loop of `parseVersion`: one pass over the numeric groups, filling `parts`. */
  method ReadGroups(g: Groups) returns (r: Option<Version>)
    requires Captured(g)
    ensures r == FromGroups(g)
  {
    var parts: seq<int> := [0, 0, 0, 0];
    var raws := [g.major, g.minor, g.patch, g.number];
    for i := 0 to |raws|
      invariant |parts| == 4
      invariant forall j :: i <= j < 4 ==> parts[j] == 0
      invariant forall j :: 0 <= j < i ==> Atoi(raws[j]) == Some(parts[j])
    {
      if raws[i] != "" {
        var part := Atoi(raws[i]);
        if part.None? {
          return None;
        }
        parts := parts[i := part.value];
      }
    }
    if !g.channel.Stable? && parts[3] < 1 {
      return None;
    }
    return Some(Version(Base(parts[0], parts[1], parts[2]), g.channel, parts[3]));
  }

  /** `parsePublishVersion`. */
  function ParsePublish(value: string): Option<Version> {
    match Parse(value)
    case None => None
    case Some(v) => if TrimSpace(value) != VersionString(v) then None else Some(v)
  }

  // ---- The matcher accepts exactly the pattern's language ----

  lemma {:induction false} SuffixMatches(g: Groups)
    requires Captured(g)
    ensures MatchSuffix(g.major, g.minor, g.patch, Suffix(g)) == Some(g)
    ensures Suffix(g) == "" || !IsDigit(Suffix(g)[0])
  {
    var s := Suffix(g);
    if !g.channel.Stable? {
      var mark := "-" + ChannelName(g.channel) + ".";
      assert s == mark + g.number;
      assert s[1] == ChannelName(g.channel)[0];
      assert mark <= s && s[|mark|..] == g.number;
      assert g.channel.Dev? ==> mark == "-dev.";
      assert HasPrefix(s, "-dev.") ==> s[1] == 'd';
      DigitRunIsUnique(g.number, "");
      assert g.number + "" == g.number;
    }
  }

  lemma DottedIsTaken(digits: string, rest: string)
    requires AllDigits(digits) && digits != ""
    ensures TakeDotted(Dotted(digits, rest)) == Some((digits, rest))
  {
    DigitRunIsUnique(digits, "." + rest);
    assert ("." + rest)[1..] == rest;
  }

  lemma TakenIsDotted(s: string)
    requires TakeDotted(s).Some?
    ensures var (digits, rest) := TakeDotted(s).value;
            s == Dotted(digits, rest) && AllDigits(digits) && digits != ""
  {
  }

  lemma TagIsStripped(tagged: bool, s: string)
    requires s != "" && IsDigit(s[0])
    ensures StripTag((if tagged then TAG_PREFIX else "") + s) == s
  {
    var t := (if tagged then TAG_PREFIX else "") + s;
    assert TAG_PREFIX[0] == 'd' && !IsDigit('d');
    if tagged {
      assert t[|TAG_PREFIX|..] == s;
    } else {
      assert t == s;
    }
  }

  lemma {:induction false} MatchSpelled(tagged: bool, g: Groups)
    requires Captured(g)
    ensures Match((if tagged then TAG_PREFIX else "") + Spelled(g)) == Some(g)
  {
    TagIsStripped(tagged, Spelled(g));
    DottedIsTaken(g.major, Dotted(g.minor, g.patch + Suffix(g)));
    DottedIsTaken(g.minor, g.patch + Suffix(g));
    SuffixMatches(g);
    DigitRunIsUnique(g.patch, Suffix(g));
  }

  lemma PatchIsSpelled(major: string, minor: string, s: string)
    requires MatchPatch(major, minor, s).Some?
    ensures var g := MatchPatch(major, minor, s).value;
            && s == g.patch + Suffix(g) && (g.channel.Stable? <==> g.number == "") && AllDigits(g.number)
            && (g.major, g.minor) == (major, minor) && AllDigits(g.patch) && g.patch != ""
  {
  }

  lemma StrippedTag(s: string)
    ensures s == StripTag(s) || s == TAG_PREFIX + StripTag(s)
  {
  }

  lemma {:induction false} MatchIsSpelled(s: string)
    requires Match(s).Some?
    ensures var g := Match(s).value;
            Captured(g) && (s == Spelled(g) || s == TAG_PREFIX + Spelled(g))
  {
    var t := StripTag(s);
    StrippedTag(s);
    var (major, s1) := TakeDotted(t).value;
    TakenIsDotted(t);
    var (minor, s2) := TakeDotted(s1).value;
    TakenIsDotted(s1);
    PatchIsSpelled(major, minor, s2);
  }

  // ---- Printing and parsing undo each other ----

  function GroupsOf(v: Version): (g: Groups)
    requires WellFormed(v)
    ensures Captured(g) && Spelled(g) == VersionString(v)
  {
    var n := if v.channel.Stable? then "" else Decimal(v.number);
    Groups(Decimal(v.base.major), Decimal(v.base.minor), Decimal(v.base.patch), v.channel, n)
  }

  lemma {:induction false} GroupsDenote(v: Version)
    requires WellFormed(v)
    ensures var g := GroupsOf(v);
            && Atoi(g.major) == Some(v.base.major) && Atoi(g.minor) == Some(v.base.minor)
            && Atoi(g.patch) == Some(v.base.patch) && Atoi(g.number) == Some(v.number)
  {
    NumberOfDecimal(v.base.major);
    NumberOfDecimal(v.base.minor);
    NumberOfDecimal(v.base.patch);
    NumberOfDecimal(v.number);
  }

  lemma {:induction false} VersionStringIsTight(v: Version)
    requires WellFormed(v)
    ensures VersionString(v) != "" && Tight(VersionString(v)) && Tight(TAG_PREFIX + VersionString(v))
    ensures IsDigit(VersionString(v)[0])
  {
  }

  /** Parsing a printed version gives the version back, tagged or not and with any space around it. */
  lemma {:induction false} PrintThenParse(v: Version, tagged: bool, before: string, after: string, value: string)
    requires WellFormed(v) && AllSpace(before) && AllSpace(after)
    requires value == before + ((if tagged then TAG_PREFIX else "") + VersionString(v)) + after
    ensures Parse(value) == Some(v)
  {
    var t := (if tagged then TAG_PREFIX else "") + VersionString(v);
    assert TrimSpace(value) == t by {
      VersionStringIsTight(v);
      assert !tagged ==> t == VersionString(v);
      TrimSpaceStrips(before, t, after);
    }
    MatchSpelled(tagged, GroupsOf(v));
    GroupsDenote(v);
  }

  lemma ParsePrinted(v: Version)
    requires WellFormed(v)
    ensures Parse(VersionString(v)) == Some(v) && TrimSpace(VersionString(v)) == VersionString(v)
  {
    VersionStringIsTight(v);
    TrimSpaceKeeps(VersionString(v));
    var s := VersionString(v);
    assert "" + s == s && s + "" == s;
    PrintThenParse(v, false, "", "", s);
  }

  lemma {:induction false} ParsedIsWellFormed(value: string)
    requires Parse(value).Some?
    ensures WellFormed(Parse(value).value)
  {
  }

  lemma {:induction false} VersionStringIsInjective(v: Version, w: Version)
    requires WellFormed(v) && WellFormed(w) && VersionString(v) == VersionString(w)
    ensures v == w
  {
    ParsePrinted(v);
    ParsePrinted(w);
  }

  /** The publish parser accepts exactly the values whose trimmed form is some version's own spelling. */
  lemma {:induction false} ParsePublishExactly(value: string, v: Version)
    ensures ParsePublish(value) == Some(v) <==> WellFormed(v) && TrimSpace(value) == VersionString(v)
  {
    if ParsePublish(value) == Some(v) {
      ParsedIsWellFormed(value);
    }
    if WellFormed(v) && TrimSpace(value) == VersionString(v) {
      ParsePrinted(v);
    }
  }

  /** The spellings in use: base, then channel and number of a prerelease. */
  lemma {:induction false} SpellingExamples()
    ensures VersionString(Version(Base(1, 4, 0), Stable, 0)) == "1.4.0"
    ensures VersionString(Version(Base(1, 2, 3), Beta, 4)) == "1.2.3-beta.4"
    ensures VersionString(Version(Base(0, 1, 8), Dev, 25)) == "0.1.8-dev.25"
  {
    hide Decimal;
    Digits();
  }

  lemma Digits()
    ensures Decimal(0) == "0" && Decimal(1) == "1" && Decimal(2) == "2" && Decimal(3) == "3" && Decimal(4) == "4"
    ensures Decimal(8) == "8" && Decimal(25) == "25"
  {
    assert Decimal(25) == Decimal(2) + [DigitChar(5)];
  }

  // ---- The promotion order ----

  function CompareInt(a: int, b: int): int {
    if a < b then -1 else if a > b then 1 else 0
  }

  /** `compareBase`. */
  function CompareBase(a: Base, b: Base): int {
    if a.major != b.major then CompareInt(a.major, b.major)
    else if a.minor != b.minor then CompareInt(a.minor, b.minor)
    else CompareInt(a.patch, b.patch)
  }

  function Rank(c: Channel): nat {
    match c case Dev => 0 case Beta => 1 case Stable => 2
  }

  /** `compareChannelRelease`: by base, then dev before beta before stable, then by number. */
  function Compare(a: Version, b: Version): int {
    if CompareBase(a.base, b.base) != 0 then CompareBase(a.base, b.base)
    else if a.channel != b.channel then CompareInt(Rank(a.channel), Rank(b.channel))
    else CompareInt(a.number, b.number)
  }

  predicate Below(a: Version, b: Version) { Compare(a, b) < 0 }

  /** The promotion order is a strict total order in which only equal versions tie. */
  lemma PromotionOrderIsTotal(a: Version, b: Version, c: Version)
    ensures Compare(a, b) == -Compare(b, a)
    ensures Compare(a, b) == 0 <==> a == b
    ensures Below(a, b) && Below(b, c) ==> Below(a, c)
  {
  }

  /** Base first, major to patch; then dev, beta, stable; then the prerelease number. */
  lemma BelowExactly(a: Version, b: Version)
    ensures Below(a, b) <==>
              || a.base.major < b.base.major
              || (a.base.major == b.base.major && a.base.minor < b.base.minor)
              || (a.base.major == b.base.major && a.base.minor == b.base.minor && a.base.patch < b.base.patch)
              || (a.base == b.base && a.channel != b.channel && (a.channel.Dev? || b.channel.Stable?))
              || (a.base == b.base && a.channel == b.channel && a.number < b.number)
  {
  }

  /** The channel pointers a release of channel `from` moves (`affectedChannels`). */
  function AffectedBy(from: Channel): (cs: seq<Channel>)
    ensures forall c :: c in cs <==> Rank(c) <= Rank(from)
    ensures forall i, j :: 0 <= i < j < |cs| ==> Rank(cs[i]) > Rank(cs[j])
  {
    match from
    case Stable => [Stable, Beta, Dev]
    case Beta => [Beta, Dev]
    case Dev => [Dev]
  }

  function Affected(v: Version): seq<Channel> { AffectedBy(v.channel) }
}
