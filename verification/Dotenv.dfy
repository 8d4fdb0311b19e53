/** launch.env: printing and parsing it (cmd/devtools/dotenv.go; strconv.Quote and strconv.Unquote as used there). */
module Dotenv {
  import opened Text

  // ---- Hexadecimal ----

  function HexDigit(d: nat): char
    requires d < 16
  {
    if d < 10 then '0' + d as char else 'a' + (d - 10) as char
  }

  function HexValue(c: char): Option<nat> {
    if '0' <= c <= '9' then Some(c as nat - '0' as nat)
    else if 'a' <= c <= 'f' then Some(c as nat - 'a' as nat + 10)
    else if 'A' <= c <= 'F' then Some(c as nat - 'A' as nat + 10)
    else None
  }

  function Pow16(width: nat): nat { if width == 0 then 1 else 16 * Pow16(width - 1) }

  /** `width` lower-case digits of n. */
  function Hex(n: nat, width: nat): (s: string)
    ensures |s| == width
  {
    if width == 0 then "" else Hex(n / 16, width - 1) + [HexDigit(n % 16)]
  }

  function ReadHex(s: string): Option<nat> {
    if s == "" then Some(0)
    else
      match (ReadHex(s[..|s| - 1]), HexValue(s[|s| - 1]))
      case (Some(high), Some(low)) => Some(16 * high + low)
      case _ => None
  }

  lemma {:induction false} ReadHexOfHex(n: nat, width: nat)
    requires n < Pow16(width)
    ensures ReadHex(Hex(n, width)) == Some(n)
  {
    if width > 0 {
      ReadHexOfHex(n / 16, width - 1);
      var s := Hex(n, width);
      assert s[..|s| - 1] == Hex(n / 16, width - 1);
    }
  }

  // ---- strconv.Quote ----

  /** `strconv.IsPrint`: the printable ASCII range; `wide` decides beyond it. */
  predicate IsPrint(wide: char -> bool, c: char) { if c < '\U{0080}' then ' ' <= c <= '~' else wide(c) }

  /** The letter of a one-letter escape. */
  function ShortEscape(c: char): Option<char> {
    if c == '\U{0007}' then Some('a') else if c == '\U{0008}' then Some('b') else if c == '\U{000C}' then Some('f')
    else if c == '\n' then Some('n') else if c == '\r' then Some('r') else if c == '\t' then Some('t')
    else if c == '\U{000B}' then Some('v') else None
  }

  function QuoteChar(wide: char -> bool, c: char): string {
    if c == '"' || c == '\\' then ['\\', c]
    else if IsPrint(wide, c) then [c]
    else if ShortEscape(c).Some? then ['\\', ShortEscape(c).value]
    else if c < ' ' || c == '\U{007F}' then ['\\', 'x'] + Hex(c as nat, 2)
    else if c as nat < 0x1_0000 then ['\\', 'u'] + Hex(c as nat, 4)
    else ['\\', 'U'] + Hex(c as nat, 8)
  }

  function QuoteAll(wide: char -> bool, s: string): string {
    if s == "" then "" else QuoteChar(wide, s[0]) + QuoteAll(wide, s[1..])
  }

  function Quote(wide: char -> bool, s: string): string { ['"'] + (QuoteAll(wide, s) + ['"']) }

  // ---- strconv.Unquote ----

  predicate ValidRune(n: nat) { n < 0xD800 || 0xE000 <= n < 0x11_0000 }

  function EscapeWidth(c: char): nat { if c == 'x' then 2 else if c == 'u' then 4 else 8 }

  function UnescapeLetter(c: char): Option<char> {
    if c == 'a' then Some('\U{0007}') else if c == 'b' then Some('\U{0008}') else if c == 'f' then Some('\U{000C}')
    else if c == 'n' then Some('\n') else if c == 'r' then Some('\r') else if c == 't' then Some('\t')
    else if c == 'v' then Some('\U{000B}') else None
  }

  function Octal(s: string): Option<nat> {
    if |s| == 3 && forall i :: 0 <= i < 3 ==> '0' <= s[i] <= '7'
    then Some(64 * (s[0] as nat - 48) + 8 * (s[1] as nat - 48) + (s[2] as nat - 48))
    else None
  }

  /**
   * `strconv.UnquoteChar`: one character, and the rest. A single byte above ASCII (an \x or octal escape) is not a
   * character on its own and is refused here.
   */
  function UnquoteChar(s: string, quote: char): (r: Option<(char, string)>)
    requires s != ""
    ensures r.Some? ==> |r.value.1| < |s|
  {
    if s[0] == quote || s[0] == '\n' then None
    else if s[0] != '\\' then Some((s[0], s[1..]))
    else if |s| < 2 then None
    else
      var c := s[1];
      if UnescapeLetter(c).Some? then Some((UnescapeLetter(c).value, s[2..]))
      else if c == '\\' then Some((c, s[2..]))
      else if c == '"' || c == '\'' then if c == quote then Some((c, s[2..])) else None
      else if c == 'x' || c == 'u' || c == 'U' then
        var end := 2 + EscapeWidth(c);
        if |s| < end then None
        else
          match ReadHex(s[2..end])
          case None => None
          case Some(n) => if !ValidRune(n) || (c == 'x' && n >= 0x80) then None else Some((n as char, s[end..]))
      else if '0' <= c <= '7' then
        if |s| < 4 then None
        else
          match Octal(s[1..4])
          case None => None
          case Some(n) => if n >= 0x80 then None else Some((n as char, s[4..]))
      else None
  }

  /** Characters up to the closing quote, which must be the last character. */
  function UnquoteRun(s: string, quote: char): Option<string>
    decreases |s|
  {
    if s == "" then None
    else if s[0] == quote then (if |s| == 1 then Some("") else None)
    else
      match UnquoteChar(s, quote)
      case None => None
      case Some((c, rest)) => match UnquoteRun(rest, quote) case None => None case Some(tail) => Some([c] + tail)
  }

  function WithoutReturns(s: string): string {
    if s == "" then "" else if s[0] == '\r' then WithoutReturns(s[1..]) else [s[0]] + WithoutReturns(s[1..])
  }

  /** `strconv.Unquote`, for its double-quoted, back-quoted and single-character forms. */
  function Unquote(s: string): Option<string> {
    if |s| < 2 || s[0] != s[|s| - 1] then None
    else if s[0] == '"' then UnquoteRun(s[1..], '"')
    else if s[0] == '`' then
      var inner := s[1..|s| - 1];
      if '`' in inner then None else Some(WithoutReturns(inner))
    else if s[0] == '\'' then
      match UnquoteRun(s[1..], '\'')
      case None => None
      case Some(v) => if |v| == 1 then Some(v) else None
    else None
  }

  lemma {:induction false} HexEscapeReads(kind: char, n: nat, rest: string)
    requires kind == 'x' || kind == 'u' || kind == 'U'
    requires ValidRune(n) && n < Pow16(EscapeWidth(kind)) && (kind == 'x' ==> n < 0x80)
    ensures UnquoteChar(['\\', kind] + Hex(n, EscapeWidth(kind)) + rest, '"') == Some((n as char, rest))
  {
    var width := EscapeWidth(kind);
    var s := ['\\', kind] + Hex(n, width) + rest;
    ReadHexOfHex(n, width);
    hide ReadHex, Hex;
    assert s[0] == '\\' && s[1] == kind;
    assert s[2..2 + width] == Hex(n, width) && s[2 + width..] == rest;
  }

  lemma {:induction false} UnquoteCharOfQuote(wide: char -> bool, c: char, rest: string)
    ensures var q := QuoteChar(wide, c);
            q != "" && q[0] != '"' && UnquoteChar(q + rest, '"') == Some((c, rest))
  {
    var q := QuoteChar(wide, c);
    assert Pow16(2) == 0x100 && Pow16(4) == 0x1_0000 && Pow16(8) == 0x1_0000_0000;
    if q[0] == '\\' && |q| > 2 {
      HexEscapeReads(q[1], c as nat, rest);
    } else {
      hide ReadHex, Hex;
      var s := q + rest;
      assert s[0] == q[0] && s[|q|..] == rest && (|q| > 1 ==> s[1] == q[1]);
    }
  }

  lemma {:induction false} UnquoteRunOfQuote(wide: char -> bool, s: string)
    ensures UnquoteRun(QuoteAll(wide, s) + ['"'], '"') == Some(s)
  {
    hide QuoteChar, UnquoteChar;
    if s == "" {
      assert QuoteAll(wide, s) + ['"'] == ['"'];
    } else {
      var q, rest := QuoteChar(wide, s[0]), QuoteAll(wide, s[1..]) + ['"'];
      UnquoteCharOfQuote(wide, s[0], rest);
      UnquoteRunOfQuote(wide, s[1..]);
      assert QuoteAll(wide, s) + ['"'] == q + rest;
      assert (q + rest)[0] == q[0];
      assert s == [s[0]] + s[1..];
    }
  }

  lemma {:induction false} UnquoteOfQuote(wide: char -> bool, s: string)
    ensures Unquote(Quote(wide, s)) == Some(s)
  {
    var q := Quote(wide, s);
    UnquoteRunOfQuote(wide, s);
    assert q[1..] == QuoteAll(wide, s) + ['"'];
  }

  /** A quoted value stays on one line. */
  lemma {:induction false} QuoteHasNoNewline(wide: char -> bool, s: string)
    ensures '\n' !in QuoteAll(wide, s)
  {
    if s != "" {
      QuoteHasNoNewline(wide, s[1..]);
      QuoteCharHasNoNewline(wide, s[0]);
    }
  }

  lemma QuoteCharHasNoNewline(wide: char -> bool, c: char)
    ensures '\n' !in QuoteChar(wide, c)
  {
    HexHasNoNewline(c as nat, 2);
    HexHasNoNewline(c as nat, 4);
    HexHasNoNewline(c as nat, 8);
  }

  lemma {:induction false} HexHasNoNewline(n: nat, width: nat)
    ensures '\n' !in Hex(n, width)
  {
    if width > 0 {
      HexHasNoNewline(n / 16, width - 1);
    }
  }
}
