/**
 * The launch.env file as a whole: what prepare writes, the next run accepts (dotenv.go, instance.go in cmd/devtools).
 */
module LaunchEnv {
  import opened Collections
  import opened Dotenv
  import opened Sorting
  import opened Text

  type Env = map<string, string>

  // ---- bufio.Scanner over lines ----

  function Utf8Size(c: char): nat {
    if c < '\U{0080}' then 1 else if c < '\U{0800}' then 2 else if c as nat < 0x1_0000 then 3 else 4
  }

  function ByteLength(s: string): nat { if s == "" then 0 else Utf8Size(s[0]) + ByteLength(s[1..]) }

  /** The longest line, without its newline, that the scanner's 64 KiB buffer takes. */
  const LONGEST_LINE := 65535

  predicate Fits(line: string) { ByteLength(line) <= LONGEST_LINE }

  function LineEnd(s: string): (n: nat)
    ensures n <= |s| && '\n' !in s[..n] && (n < |s| ==> s[n] == '\n')
  {
    if s == "" || s[0] == '\n' then 0
    else
      assert s[..1 + LineEnd(s[1..])] == [s[0]] + s[1..][..LineEnd(s[1..])];
      1 + LineEnd(s[1..])
  }

  /** The text between newlines; a final newline ends the last line. */
  function RawLines(data: string): seq<string>
    decreases |data|
  {
    if data == "" then []
    else
      var n := LineEnd(data);
      if n == |data| then [data] else [data[..n]] + RawLines(data[n + 1..])
  }

  function DropReturn(line: string): string {
    if line != "" && line[|line| - 1] == '\r' then line[..|line| - 1] else line
  }

  lemma {:induction false} FirstLine(line: string, rest: string)
    requires '\n' !in line
    ensures RawLines(line + ("\n" + rest)) == [line] + RawLines(rest)
  {
    var data := line + ("\n" + rest);
    var n := LineEnd(data);
    assert data[|line|] == '\n';
    assert forall i :: 0 <= i < |line| ==> data[i] == line[i] && data[i] in line;
    assert forall i :: 0 <= i < n ==> data[i] == data[..n][i];
    assert n == |line|;
    assert data[..n] == line && data[n + 1..] == rest;
  }

  // ---- Parsing ----

  /** The character classes beyond ASCII: what Quote prints as it is, upper-case letters and digits. */
  datatype Unicode = Unicode(printable: char -> bool, upper: char -> bool, digit: char -> bool)

  /** `unicode.IsUpper`; no letter is white space. */
  predicate IsUpper(u: Unicode, c: char) { if c < '\U{0080}' then 'A' <= c <= 'Z' else u.upper(c) && !IsSpace(c) }

  /** `unicode.IsDigit`. */
  predicate IsNumber(u: Unicode, c: char) { if c < '\U{0080}' then IsDigit(c) else u.digit(c) && !IsSpace(c) }

  /** `validEnvKey`. */
  predicate ValidKey(u: Unicode, key: string) {
    && key != "" && (key[0] == '_' || IsUpper(u, key[0]))
    && forall i :: 0 <= i < |key| ==> key[i] == '_' || IsUpper(u, key[i]) || IsNumber(u, key[i])
  }

  /** `strings.Cut`. */
  function Cut(s: string, c: char): Option<(string, string)> {
    if s == "" then None
    else if s[0] == c then Some(("", s[1..]))
    else match Cut(s[1..], c) case None => None case Some((a, b)) => Some(([s[0]] + a, b))
  }

  lemma {:induction false} CutAt(a: string, b: string, c: char)
    requires c !in a
    ensures Cut(a + ([c] + b), c) == Some((a, b))
  {
    var s := a + ([c] + b);
    if a != "" {
      assert s[0] == a[0] && s[1..] == a[1..] + ([c] + b);
      CutAt(a[1..], b, c);
      assert a == [a[0]] + a[1..];
    } else {
      assert s == [c] + b && s[1..] == b;
    }
  }

  datatype Parsed = Blank | Pair(key: string, value: string) | Malformed

  function ParseLine(u: Unicode, text: string): Parsed {
    var line := TrimSpace(text);
    if line == "" || line[0] == '#' then Blank
    else
      match Cut(line, '=')
      case None => Malformed
      case Some((key, encoded)) =>
        if !ValidKey(u, key) then Malformed
        else match Unquote(encoded) case None => Malformed case Some(value) => Pair(key, value)
  }

  function ParseLines(u: Unicode, lines: seq<string>, values: Env): Option<Env>
    decreases |lines|
  {
    if lines == [] then Some(values)
    else
      match ParseLine(u, DropReturn(lines[0]))
      case Blank => ParseLines(u, lines[1..], values)
      case Malformed => None
      case Pair(key, value) => if key in values then None else ParseLines(u, lines[1..], values[key := value])
  }

  predicate AllFit(lines: seq<string>) { forall i :: 0 <= i < |lines| ==> Fits(lines[i]) }

  /** `parseDotenv`: a line that does not fit the scanner fails the whole file. */
  function Parse(u: Unicode, data: string): Option<Env> {
    if AllFit(RawLines(data)) then ParseLines(u, RawLines(data), map[]) else None
  }

  /** `parseDotenv`, line by line. */
  method ParseDotenv(u: Unicode, data: string) returns (r: Option<Env>)
    ensures r == Parse(u, data)
  {
    hide ParseLine;
    var lines := RawLines(data);
    var values: Env := map[];
    assert lines[0..] == lines;
    for i := 0 to |lines|
      invariant forall j :: 0 <= j < i ==> Fits(lines[j])
      invariant ParseLines(u, lines, map[]) == ParseLines(u, lines[i..], values)
    {
      if !Fits(lines[i]) { return None; }
      assert lines[i..][0] == lines[i] && lines[i..][1..] == lines[i + 1..];
      match ParseLine(u, DropReturn(lines[i])) {
        case Blank =>
        case Malformed => return None;
        case Pair(key, value) =>
          if key in values { return None; }
          values := values[key := value];
      }
    }
    r := Some(values);
  }

  // ---- Rendering ----

  const HEADER := "# Generated by cmd/devtools." + (" Do not edit;" + " run `mise run dev:fresh`.")

  predicate OneLine(s: string) { forall i :: 0 <= i < |s| ==> s[i] != '\n' }

  /** A line the parser skips. */
  predicate Comment(line: string) {
    OneLine(line) && line != "" && line[0] == '#' && !IsSpace(line[|line| - 1]) && |line| < 1000
  }

  lemma HeaderIsComment()
    ensures Comment(HEADER)
  {
  }

  function Line(u: Unicode, key: string, value: string): string { key + (['='] + Quote(u.printable, value)) }

  /** The assignments, in the order of `keys`. */
  function Assignments(u: Unicode, keys: seq<string>, values: Env): string
    requires forall k :: k in keys ==> k in values
  {
    if keys == [] then "" else Line(u, keys[0], values[keys[0]]) + ("\n" + Assignments(u, keys[1..], values))
  }

  /** A whole file below a header line. */
  function RenderUnder(header: string, u: Unicode, keys: seq<string>, values: Env): string
    requires forall k :: k in keys ==> k in values
  {
    header + ("\n" + Assignments(u, keys, values))
  }

  function Render(u: Unicode, keys: seq<string>, values: Env): string
    requires forall k :: k in keys ==> k in values
  {
    RenderUnder(HEADER, u, keys, values)
  }

  lemma {:induction false} LineIsClean(u: Unicode, key: string, value: string)
    requires ValidKey(u, key)
    ensures var line := Line(u, key, value);
            && '\n' !in line && line != "" && DropReturn(line) == line && Tight(line) && line[0] != '#'
  {
    QuoteHasNoNewline(u.printable, value);
    var line := Line(u, key, value);
    assert line[0] == key[0] && line[|line| - 1] == '"';
    assert '\n' !in key;
    assert '\n' !in Quote(u.printable, value);
  }

  /** A rendered line parses back to its own assignment. */
  lemma {:induction false} LineParses(u: Unicode, key: string, value: string)
    requires ValidKey(u, key)
    ensures ParseLine(u, DropReturn(Line(u, key, value))) == Pair(key, value)
  {
    hide Quote, Unquote;
    var line := Line(u, key, value);
    LineIsClean(u, key, value);
    TrimSpaceKeeps(line);
    assert '=' !in key;
    CutAt(key, Quote(u.printable, value), '=');
    UnquoteOfQuote(u.printable, value);
  }

  function LinesOf(u: Unicode, keys: seq<string>, values: Env): (lines: seq<string>)
    requires forall k :: k in keys ==> k in values
    ensures |lines| == |keys| && forall i :: 0 <= i < |keys| ==> lines[i] == Line(u, keys[i], values[keys[i]])
  {
    seq(|keys|, i requires 0 <= i < |keys| => Line(u, keys[i], values[keys[i]]))
  }

  lemma {:induction false} AssignmentLines(u: Unicode, keys: seq<string>, values: Env)
    requires forall k :: k in keys ==> k in values && ValidKey(u, k)
    ensures RawLines(Assignments(u, keys, values)) == LinesOf(u, keys, values)
  {
    hide Line, ValidKey;
    if keys != [] {
      LineIsClean(u, keys[0], values[keys[0]]);
      FirstLine(Line(u, keys[0], values[keys[0]]), Assignments(u, keys[1..], values));
      AssignmentLines(u, keys[1..], values);
      assert LinesOf(u, keys, values) == [Line(u, keys[0], values[keys[0]])] + LinesOf(u, keys[1..], values);
    }
  }

  /** The map that assigning `keys` in turn leaves. */
  function Collected(keys: seq<string>, values: Env, acc: Env): Env
    requires forall k :: k in keys ==> k in values
    decreases |keys|
  {
    if keys == [] then acc else Collected(keys[1..], values, acc[keys[0] := values[keys[0]]])
  }

  lemma {:induction false} CollectedLookup(keys: seq<string>, values: Env, acc: Env, k: string)
    requires forall k :: k in keys ==> k in values
    ensures k in Collected(keys, values, acc) <==> k in keys || k in acc
    ensures k in keys ==> Collected(keys, values, acc)[k] == values[k]
    ensures k !in keys && k in acc ==> Collected(keys, values, acc)[k] == acc[k]
    decreases |keys|
  {
    if keys != [] {
      assert k in keys <==> k == keys[0] || k in keys[1..];
      CollectedLookup(keys[1..], values, acc[keys[0] := values[keys[0]]], k);
    }
  }

  lemma {:induction false} CollectedIsAll(keys: seq<string>, values: Env)
    requires forall k :: k in keys <==> k in values
    ensures Collected(keys, values, map[]) == values
  {
    var all := Collected(keys, values, map[]);
    forall k ensures (k in all <==> k in values) && (k in values ==> all[k] == values[k]) {
      CollectedLookup(keys, values, map[], k);
    }
  }

  lemma {:induction false} LinesParse(u: Unicode, keys: seq<string>, values: Env, acc: Env)
    requires Distinct(keys) && forall k :: k in keys ==> k in values && ValidKey(u, k) && k !in acc
    ensures ParseLines(u, LinesOf(u, keys, values), acc) == Some(Collected(keys, values, acc))
    decreases |keys|
  {
    hide Line, ValidKey, ParseLine, DropReturn;
    if keys != [] {
      var k := keys[0];
      LineParses(u, k, values[k]);
      assert LinesOf(u, keys, values)[1..] == LinesOf(u, keys[1..], values);
      forall j | j in keys[1..] ensures j in keys && j != k {
        var i :| 0 <= i < |keys[1..]| && keys[1..][i] == j;
        assert keys[i + 1] == j;
      }
      LinesParse(u, keys[1..], values, acc[k := values[k]]);
    }
  }

  lemma {:induction false} ShortIsFit(s: string)
    ensures ByteLength(s) <= 4 * |s|
  {
    if s != "" {
      ShortIsFit(s[1..]);
    }
  }

  lemma {:induction false} RenderedLines(header: string, u: Unicode, keys: seq<string>, values: Env)
    requires Comment(header) && forall k :: k in keys ==> k in values && ValidKey(u, k)
    ensures RawLines(RenderUnder(header, u, keys, values)) == [header] + LinesOf(u, keys, values)
  {
    hide Line, ValidKey, RawLines, LinesOf;
    FirstLine(header, Assignments(u, keys, values));
    AssignmentLines(u, keys, values);
  }

  /**
   * Parsing a rendered file gives the map back exactly when every rendered line fits the scanner; otherwise it fails.
   */
  lemma {:induction false} RenderThenParse(header: string, u: Unicode, keys: seq<string>, values: Env)
    requires Comment(header)
    requires Distinct(keys) && (forall k :: k in keys <==> k in values) && forall k :: k in values ==> ValidKey(u, k)
    ensures Parse(u, RenderUnder(header, u, keys, values))
            == if forall k :: k in values ==> Fits(Line(u, k, values[k])) then Some(values) else None
  {
    hide Line, ValidKey, ParseLines, Fits, RawLines, Comment, Collected, RenderUnder;
    var lines := LinesOf(u, keys, values);
    RenderedLines(header, u, keys, values);
    HeaderIsSkipped(u, header, lines);
    LinesParse(u, keys, values, map[]);
    CollectedIsAll(keys, values);
    var all := [header] + lines;
    if forall k :: k in values ==> Fits(Line(u, k, values[k])) {
      forall i | 0 <= i < |all| ensures Fits(all[i]) {
        if i > 0 { assert keys[i - 1] in keys; }
      }
    } else {
      var k :| k in values && !Fits(Line(u, k, values[k]));
      var i :| 0 <= i < |keys| && keys[i] == k;
      assert all[i + 1] == lines[i] == Line(u, k, values[k]);
    }
  }

  lemma {:induction false} HeaderIsSkipped(u: Unicode, header: string, lines: seq<string>)
    requires Comment(header)
    ensures ParseLines(u, [header] + lines, map[]) == ParseLines(u, lines, map[]) && Fits(header)
  {
    ShortIsFit(header);
    assert Tight(header) && DropReturn(header) == header;
    TrimSpaceKeeps(header);
    assert ParseLine(u, header) == Blank;
    assert ([header] + lines)[1..] == lines;
  }

  /** `sortedKeys`. */
  method SortedKeys(values: Env) returns (keys: seq<string>)
    ensures Distinct(keys) && Ascending(keys) && forall k :: k in keys <==> k in values
  {
    keys := [];
    var left := values.Keys;
    while left != {}
      invariant left <= values.Keys && Distinct(keys) && forall k :: k in keys <==> k in values && k !in left
      decreases left
    {
      var k :| k in left;
      keys := keys + [k];
      left := left - {k};
    }
    ghost var unsorted := keys;
    keys := Sort(keys);
    SameMembers(unsorted, keys);
    PermutationIsDistinct(unsorted, keys);
  }

  lemma NextAssignment(u: Unicode, keys: seq<string>, values: Env, i: nat)
    requires i < |keys| && forall k :: k in keys ==> k in values
    ensures Assignments(u, keys[i..], values)
            == Line(u, keys[i], values[keys[i]]) + ("\n" + Assignments(u, keys[i + 1..], values))
  {
  }

  lemma NoAssignments(u: Unicode, keys: seq<string>, values: Env)
    requires keys == []
    ensures Assignments(u, keys, values) == ""
  {
  }

  lemma AppendLine(output: string, line: string, rest: string)
    ensures output + (line + ("\n" + rest)) == output + line + "\n" + rest
    ensures output == "" ==> line + ("\n" + rest) == line + "\n" + rest
  {
  }

  /** `writeDotenvAtomic`, up to the file it renames into place: refused on a bad key, otherwise what parses back. */
  method WriteDotenv(u: Unicode, values: Env) returns (text: Option<string>)
    ensures text.Some? <==> forall k :: k in values ==> ValidKey(u, k)
    ensures text.Some? ==>
              Parse(u, text.value)
              == if forall k :: k in values ==> Fits(Line(u, k, values[k])) then Some(values) else None
    ensures text.Some? ==>
              exists keys ::
                && Ascending(keys) && Distinct(keys) && (forall k :: k in keys <==> k in values)
                && RawLines(text.value) == [HEADER] + LinesOf(u, keys, values)
  {
    hide ValidKey, Fits, Line, HEADER, Parse, Assignments, RawLines, LinesOf;
    var keys := SortedKeys(values);
    var output := HEADER + "\n";
    AppendLine("", HEADER, Assignments(u, keys, values));
    assert keys[0..] == keys;
    for i := 0 to |keys|
      invariant forall j :: 0 <= j < i ==> ValidKey(u, keys[j])
      invariant output + Assignments(u, keys[i..], values) == Render(u, keys, values)
    {
      if !ValidKey(u, keys[i]) {
        assert keys[i] in values;
        return None;
      }
      var line := Line(u, keys[i], values[keys[i]]);
      NextAssignment(u, keys, values, i);
      AppendLine(output, line, Assignments(u, keys[i + 1..], values));
      output := output + line + "\n";
    }
    NoAssignments(u, keys[|keys|..], values);
    assert output == Render(u, keys, values);
    HeaderIsComment();
    RenderThenParse(HEADER, u, keys, values);
    RenderedLines(HEADER, u, keys, values);
    text := Some(output);
  }

  // ---- Reuse of what prepare wrote ----

  const HIVE := "HIVE_DESKTOP_"
  const MARKER := HIVE + "LAUNCH_ENV"

  const LAUNCH_KEYS: seq<string> := [
    HIVE + "DEVELOPMENT_KEYRING_SERVICE", HIVE + "DATA_DIR", HIVE + "CONFIG_DIR", HIVE + "AGENT_WORKSPACES_DIR",
    HIVE + "DEVELOPMENT_GITHUB_API_BASE", HIVE + "LOG_LEVEL", HIVE + "HTTP_ENABLED", HIVE + "HTTP_PORT",
    HIVE + "DEVELOPMENT_PERF_ENABLED",
    "WAILS_VITE_HOST", "WAILS_VITE_PORT", "WAILS_SERVER_HOST", "WAILS_SERVER_PORT", MARKER]

  /** The one key prepare writes that reuse does not ask for. */
  const HIVE_DATA_KEY := HIVE + "HIVE_DATA_DIR"

  datatype Launch = Absent | Usable(env: Env) | Unusable(env: Env)

  /** `readLaunchIfPresent`: the file is reusable if it parses, belongs to this worktree and misses no key. */
  function ReadLaunch(u: Unicode, data: Option<string>, launchPath: string): Launch {
    match data
    case None => Absent
    case Some(text) =>
      match Parse(u, text)
      case None => Unusable(map[])
      case Some(env) =>
        if MARKER in env && env[MARKER] == launchPath && forall k :: k in LAUNCH_KEYS ==> k in env
        then Usable(env) else Unusable(env)
  }

  /** The map `prepare` builds: every launch key and the hive data directory, with this worktree's path as its mark. */
  predicate Prepared(env: Env, launchPath: string) {
    && env.Keys == (set k | k in LAUNCH_KEYS) + {HIVE_DATA_KEY}
    && MARKER in env && env[MARKER] == launchPath
  }

  predicate KeyTail(s: string) { forall i :: 0 <= i < |s| ==> s[i] == '_' || 'A' <= s[i] <= 'Z' }

  lemma HiveKeyIsValid(u: Unicode, tail: string)
    requires KeyTail(tail)
    ensures ValidKey(u, HIVE + tail)
  {
  }

  lemma WailsKeysAreValid(u: Unicode)
    ensures ValidKey(u, "WAILS_VITE_HOST") && ValidKey(u, "WAILS_VITE_PORT")
    ensures ValidKey(u, "WAILS_SERVER_HOST") && ValidKey(u, "WAILS_SERVER_PORT")
  {
  }

  lemma TailsAreGood()
    ensures KeyTail("DEVELOPMENT_KEYRING_SERVICE") && KeyTail("DATA_DIR") && KeyTail("CONFIG_DIR")
    ensures KeyTail("AGENT_WORKSPACES_DIR") && KeyTail("DEVELOPMENT_GITHUB_API_BASE") && KeyTail("LOG_LEVEL")
  {
  }

  lemma MoreTailsAreGood()
    ensures KeyTail("HTTP_ENABLED") && KeyTail("HTTP_PORT") && KeyTail("DEVELOPMENT_PERF_ENABLED")
    ensures KeyTail("LAUNCH_ENV") && KeyTail("HIVE_DATA_DIR")
  {
  }

  lemma {:induction false} LaunchKeysAreValid(u: Unicode, k: string)
    requires k in LAUNCH_KEYS || k == HIVE_DATA_KEY
    ensures ValidKey(u, k)
  {
    hide ValidKey, KeyTail, HIVE;
    WailsKeysAreValid(u);
    TailsAreGood();
    MoreTailsAreGood();
    HiveKeyIsValid(u, "DEVELOPMENT_KEYRING_SERVICE");
    HiveKeyIsValid(u, "DATA_DIR");
    HiveKeyIsValid(u, "CONFIG_DIR");
    HiveKeyIsValid(u, "AGENT_WORKSPACES_DIR");
    HiveKeyIsValid(u, "DEVELOPMENT_GITHUB_API_BASE");
    HiveKeyIsValid(u, "LOG_LEVEL");
    HiveKeyIsValid(u, "HTTP_ENABLED");
    HiveKeyIsValid(u, "HTTP_PORT");
    HiveKeyIsValid(u, "DEVELOPMENT_PERF_ENABLED");
    HiveKeyIsValid(u, "LAUNCH_ENV");
    HiveKeyIsValid(u, "HIVE_DATA_DIR");
  }

  /** What `prepare` writes is accepted as reusable next time, exactly when every line fits the scanner. */
  lemma {:induction false} PreparedIsReused(u: Unicode, keys: seq<string>, env: Env, launchPath: string)
    requires Prepared(env, launchPath) && Distinct(keys) && forall k :: k in keys <==> k in env
    ensures ReadLaunch(u, Some(Render(u, keys, env)), launchPath)
            == if forall k :: k in env ==> Fits(Line(u, k, env[k])) then Usable(env) else Unusable(map[])
  {
    hide ValidKey, Parse, Line, Fits, LAUNCH_KEYS, HIVE_DATA_KEY, MARKER, HEADER, RenderUnder;
    forall k | k in env ensures ValidKey(u, k) {
      LaunchKeysAreValid(u, k);
    }
    HeaderIsComment();
    RenderThenParse(HEADER, u, keys, env);
  }
}
