/** When a text is a launch.env, what it says, and when the next prepare takes it over. */
module LaunchMeaning {
  import opened Collections
  import opened Dotenv
  import opened LaunchEnv
  import opened Text

  // ---- Lines ----

  lemma LastLine(line: string)
    requires '\n' !in line
    ensures RawLines(line) == if line == "" then [] else [line]
  {
    assert forall i :: 0 <= i < |line| ==> line[i] in line && line[i] != '\n';
  }

  /** Blank lines and comments say nothing. */
  lemma {:induction false} SkippedLine(u: Unicode, before: string, rest: string, after: string)
    requires AllSpace(before) && AllSpace(after) && Tight(rest) && (rest == "" || rest[0] == '#')
    ensures ParseLine(u, before + rest + after) == Blank
  {
    if rest == "" {
      TrimSpaceOfSpace(before + rest + after);
    } else {
      TrimSpaceStrips(before, rest, after);
    }
  }

  /** A line with an equals sign assigns what is right of the first one, unquoted, to a valid key left of it. */
  lemma {:induction false} AssignmentLine(u: Unicode, before: string, key: string, encoded: string, after: string)
    requires AllSpace(before) && AllSpace(after) && '=' !in key && Tight(key + ("=" + encoded))
    requires key == "" || key[0] != '#'
    ensures ParseLine(u, before + (key + ("=" + encoded)) + after) ==
              if ValidKey(u, key) && Unquote(encoded).Some? then Pair(key, Unquote(encoded).value) else Malformed
  {
    hide ValidKey, Unquote;
    TrimSpaceStrips(before, key + ("=" + encoded), after);
    CutAt(key, encoded, '=');
    assert key != "" ==> (key + ("=" + encoded))[0] == key[0];
  }

  /** Any other line is an error. */
  lemma {:induction false} OtherLine(u: Unicode, before: string, rest: string, after: string)
    requires AllSpace(before) && AllSpace(after) && Tight(rest) && rest != "" && rest[0] != '#' && '=' !in rest
    ensures ParseLine(u, before + rest + after) == Malformed
  {
    TrimSpaceStrips(before, rest, after);
    NoCut(rest, '=');
  }

  lemma {:induction false} NoCut(s: string, c: char)
    requires c !in s
    ensures Cut(s, c).None?
  {
    if s != "" {
      assert forall x :: x in s[1..] ==> x in s;
      NoCut(s[1..], c);
    }
  }

  // ---- Files ----

  function Said(u: Unicode, lines: seq<string>): seq<Parsed> {
    seq(|lines|, i requires 0 <= i < |lines| => ParseLine(u, DropReturn(lines[i])))
  }

  /** No line is an error, no key is assigned twice, and none is there already. */
  ghost predicate Consistent(said: seq<Parsed>, taken: set<string>) {
    && (forall i :: 0 <= i < |said| ==> !said[i].Malformed? && (said[i].Pair? ==> said[i].key !in taken))
    && forall i, j :: 0 <= i < j < |said| && said[i].Pair? && said[j].Pair? ==> said[i].key != said[j].key
  }

  lemma {:induction false} LinesExactly(u: Unicode, lines: seq<string>, values: Env)
    ensures ParseLines(u, lines, values).Some? <==> Consistent(Said(u, lines), values.Keys)
    ensures ParseLines(u, lines, values).Some? ==>
              var all := ParseLines(u, lines, values).value;
              forall k, v :: (k in all && all[k] == v) <==>
                  (k in values && values[k] == v) || Pair(k, v) in Said(u, lines)
    decreases |lines|
  {
    hide ParseLine, DropReturn;
    if lines != [] {
      var said := Said(u, lines);
      assert said == [said[0]] + Said(u, lines[1..]);
      var next := if said[0].Pair? then values[said[0].key := said[0].value] else values;
      LinesExactly(u, lines[1..], next);
      assert next.Keys == values.Keys + if said[0].Pair? then {said[0].key} else {};
      ConsistentOn(said, values.Keys);
    }
  }

  lemma {:induction false} ConsistentOn(said: seq<Parsed>, taken: set<string>)
    requires said != []
    ensures Consistent(said, taken) <==>
              && !said[0].Malformed? && (said[0].Pair? ==> said[0].key !in taken)
              && Consistent(said[1..], taken + if said[0].Pair? then {said[0].key} else {})
  {
    var rest, more := said[1..], taken + if said[0].Pair? then {said[0].key} else {};
    assert forall i :: 0 <= i < |rest| ==> rest[i] == said[i + 1];
    if Consistent(rest, more) && !said[0].Malformed? && (said[0].Pair? ==> said[0].key !in taken) {
      forall i | 0 <= i < |said| ensures !said[i].Malformed? && (said[i].Pair? ==> said[i].key !in taken) {
        if i > 0 { assert rest[i - 1] == said[i]; }
      }
      forall i, j | 0 <= i < j < |said| && said[i].Pair? && said[j].Pair? ensures said[i].key != said[j].key {
        assert rest[j - 1] == said[j];
        if i > 0 { assert rest[i - 1] == said[i]; }
      }
    }
  }

  /**
   * A text is a launch.env exactly when every line fits the scanner, none is an error and no key is assigned twice; it
   * then says exactly what its lines assign.
   */
  lemma {:induction false} ParsesExactly(u: Unicode, data: string)
    ensures var said := Said(u, RawLines(data));
            && (Parse(u, data).Some? <==>
                  (forall line :: line in RawLines(data) ==> ByteLength(line) <= 65535) && Consistent(said, {}))
            && (Parse(u, data).Some? ==>
                  forall k, v :: (k in Parse(u, data).value && Parse(u, data).value[k] == v) <==> Pair(k, v) in said)
  {
    hide RawLines, ParseLine, DropReturn, ByteLength, ParseLines, Consistent;
    var lines := RawLines(data);
    var none: Env := map[];
    LinesExactly(u, lines, none);
    assert none.Keys == {};
    assert (forall line :: line in lines ==> ByteLength(line) <= 65535) <==> AllFit(lines) by {
      assert forall i :: 0 <= i < |lines| ==> lines[i] in lines;
    }
  }

  // ---- Reuse ----

  const OWN_PATH := "HIVE_DESKTOP_" + "LAUNCH_ENV"

  /** The names a reusable file must assign. */
  function Required(): set<string> {
    {"HIVE_DESKTOP_" + "DEVELOPMENT_KEYRING_SERVICE", "HIVE_DESKTOP_" + "DATA_DIR", "HIVE_DESKTOP_" + "CONFIG_DIR",
     "HIVE_DESKTOP_" + "AGENT_WORKSPACES_DIR", "HIVE_DESKTOP_" + "DEVELOPMENT_GITHUB_API_BASE",
     "HIVE_DESKTOP_" + "LOG_LEVEL", "HIVE_DESKTOP_" + "HTTP_ENABLED", "HIVE_DESKTOP_" + "HTTP_PORT",
     "HIVE_DESKTOP_" + "DEVELOPMENT_PERF_ENABLED", "WAILS_VITE_HOST", "WAILS_VITE_PORT", "WAILS_SERVER_HOST",
     "WAILS_SERVER_PORT", OWN_PATH}
  }

  lemma RequiredKeys()
    ensures MARKER == OWN_PATH && forall k :: k in Required() <==> k in LAUNCH_KEYS
  {
  }

  /** A file is taken over exactly when it parses, assigns every required name, and bears this worktree's path. */
  lemma {:induction false} ReusedExactly(u: Unicode, data: Option<string>, launchPath: string, env: Env)
    ensures ReadLaunch(u, data, launchPath) == Usable(env) <==>
              && data.Some? && Parse(u, data.value) == Some(env) && Required() <= env.Keys
              && env[OWN_PATH] == launchPath
    ensures ReadLaunch(u, data, launchPath) == Absent <==> data.None?
    ensures ReadLaunch(u, data, launchPath) == Unusable(env) ==>
              data.Some? && env == if Parse(u, data.value).Some? then Parse(u, data.value).value else map[]
  {
    hide Parse, LAUNCH_KEYS, MARKER, OWN_PATH, Required;
    RequiredKeys();
    assert OWN_PATH in Required() by { MarkerIsRequired(); }
  }

  lemma MarkerIsRequired()
    ensures OWN_PATH in Required()
  {
  }

  /**
   * Whatever is written is taken over exactly when it fits, has every required name and bears the reader's path:
   * another worktree's file is not, nor one that lacks a name.
   */
  lemma {:induction false} WrittenIsReusedExactly(u: Unicode, keys: seq<string>, env: Env, launchPath: string)
    requires Distinct(keys) && (forall k :: k in keys <==> k in env) && forall k :: k in env ==> ValidKey(u, k)
    ensures ReadLaunch(u, Some(Render(u, keys, env)), launchPath).Usable? <==>
              && (forall k :: k in env ==> ByteLength(Line(u, k, env[k])) <= 65535) && Required() <= env.Keys
              && env[OWN_PATH] == launchPath
  {
    hide ValidKey, Parse, Line, LAUNCH_KEYS, MARKER, HEADER, RenderUnder, ReadLaunch, Required, ByteLength;
    MarkerIsRequired();
    HeaderIsComment();
    RenderThenParse(HEADER, u, keys, env);
    ReusedExactly(u, Some(Render(u, keys, env)), launchPath, env);
    if ReadLaunch(u, Some(Render(u, keys, env)), launchPath).Usable? {
      var read := ReadLaunch(u, Some(Render(u, keys, env)), launchPath).env;
      ReusedExactly(u, Some(Render(u, keys, env)), launchPath, read);
    }
  }

  // ---- Back quotes ----

  /** A back-quoted value is what is between the quotes, carriage returns apart. */
  lemma {:induction false} BackQuoted(s: string)
    requires '`' !in s && '\r' !in s
    ensures Unquote("`" + s + "`") == Some(s)
  {
    var q := "`" + s + "`";
    assert q[1..|q| - 1] == s;
    NoReturns(s);
  }

  lemma {:induction false} NoReturns(s: string)
    requires '\r' !in s
    ensures WithoutReturns(s) == s
  {
    if s != "" {
      assert forall x :: x in s[1..] ==> x in s;
      NoReturns(s[1..]);
      assert s == [s[0]] + s[1..];
    }
  }

  /** Text of printable ASCII without quotes and backslashes is quoted as it is. */
  lemma {:induction false} PlainQuoted(wide: char -> bool, s: string)
    requires forall i :: 0 <= i < |s| ==> ' ' <= s[i] <= '~' && s[i] != '"' && s[i] != '\\'
    ensures Quote(wide, s) == ['"'] + s + ['"']
  {
    PlainIsItself(wide, s);
    assert ['"'] + (s + ['"']) == ['"'] + s + ['"'];
  }

  lemma {:induction false} PlainIsItself(wide: char -> bool, s: string)
    requires forall i :: 0 <= i < |s| ==> ' ' <= s[i] <= '~' && s[i] != '"' && s[i] != '\\'
    ensures QuoteAll(wide, s) == s
  {
    if s != "" {
      PlainIsItself(wide, s[1..]);
      assert s == [s[0]] + s[1..];
    }
  }
}
