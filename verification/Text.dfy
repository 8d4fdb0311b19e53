/** Strings as the Go code sees them: decimal numbers, trimming and cutting. */
module Text {

  datatype Option<+T> = None | Some(value: T)

  /** The largest value of Go's 64-bit `int`. */
  const MAX_INT := 0x7FFF_FFFF_FFFF_FFFF

  /** `n + 1` in Go's 64-bit `int`, wrap-around included. */
  function Increment(n: int): int {
    if n == MAX_INT then -MAX_INT - 1 else n + 1
  }

  predicate IsDigit(c: char) { '0' <= c <= '9' }

  predicate AllDigits(s: string) { forall i :: 0 <= i < |s| ==> IsDigit(s[i]) }

  predicate HasPrefix(s: string, prefix: string) { prefix <= s }

  function DigitChar(d: nat): (c: char)
    requires d < 10
    ensures IsDigit(c) && c as int - '0' as int == d
  {
    ('0' as int + d) as char
  }

  /** `%d` of a natural number. */
  function Decimal(n: nat): (s: string)
    ensures AllDigits(s) && |s| > 0
  {
    if n < 10 then [DigitChar(n)] else Decimal(n / 10) + [DigitChar(n % 10)]
  }

  /** `%d` of any integer. */
  function PrintInt(n: int): string {
    if n < 0 then "-" + Decimal(-n) else Decimal(n)
  }

  /** The number a digit string denotes. */
  function NumberOf(s: string): nat
    requires AllDigits(s)
  {
    if s == "" then 0
    else 10 * NumberOf(s[..|s| - 1]) + (s[|s| - 1] as int - '0' as int)
  }

  /** `strconv.Atoi` on a digit string: a value that does not fit is an error. */
  function Atoi(s: string): Option<nat>
    requires AllDigits(s)
  {
    if NumberOf(s) <= MAX_INT then Some(NumberOf(s)) else None
  }

  lemma {:induction false} NumberOfDecimal(n: nat)
    ensures NumberOf(Decimal(n)) == n
  {
    if n >= 10 {
      NumberOfDecimal(n / 10);
      var s := Decimal(n);
      assert s[..|s| - 1] == Decimal(n / 10);
    }
  }

  /** The length of the longest run of digits at the front of `s`. */
  function DigitRun(s: string): (n: nat)
    ensures n <= |s| && AllDigits(s[..n])
    ensures n < |s| ==> !IsDigit(s[n])
  {
    if s == "" || !IsDigit(s[0]) then 0 else 1 + DigitRun(s[1..])
  }

  lemma {:induction false} DigitRunIsUnique(digits: string, rest: string)
    requires AllDigits(digits)
    requires rest == "" || !IsDigit(rest[0])
    ensures DigitRun(digits + rest) == |digits|
    ensures (digits + rest)[..|digits|] == digits && (digits + rest)[|digits|..] == rest
  {
  }

  /** `unicode.IsSpace`. */
  predicate IsSpace(c: char) {
    || c == '\t' || c == '\n' || c == '\U{000B}' || c == '\U{000C}' || c == '\r' || c == ' '
    || c == '\U{0085}' || c == '\U{00A0}' || c == '\U{1680}' || '\U{2000}' <= c <= '\U{200A}'
    || c == '\U{2028}' || c == '\U{2029}' || c == '\U{202F}' || c == '\U{205F}' || c == '\U{3000}'
  }

  function TrimLeft(s: string): string {
    if s != "" && IsSpace(s[0]) then TrimLeft(s[1..]) else s
  }

  function TrimRight(s: string): string {
    if s != "" && IsSpace(s[|s| - 1]) then TrimRight(s[..|s| - 1]) else s
  }

  /** `strings.TrimSpace`. */
  function TrimSpace(s: string): string { TrimRight(TrimLeft(s)) }

  predicate AllSpace(s: string) { forall i :: 0 <= i < |s| ==> IsSpace(s[i]) }

  /** True of a string that `TrimSpace` leaves alone. */
  predicate Tight(s: string) {
    s == "" || (!IsSpace(s[0]) && !IsSpace(s[|s| - 1]))
  }

  lemma {:induction false} TrimSpaceStrips(before: string, s: string, after: string)
    requires AllSpace(before) && AllSpace(after) && s != "" && Tight(s)
    ensures TrimSpace(before + s + after) == s
    decreases |before| + |after|
  {
    if before != "" {
      assert (before + s + after)[1..] == before[1..] + s + after;
      TrimSpaceStrips(before[1..], s, after);
    } else if after != "" {
      var t := s + after;
      assert before + s + after == t && s + after[..|after| - 1] == t[..|t| - 1];
      assert "" + s + after[..|after| - 1] == s + after[..|after| - 1];
      assert TrimLeft(t) == t && TrimLeft(t[..|t| - 1]) == t[..|t| - 1];
      TrimSpaceStrips("", s, after[..|after| - 1]);
    } else {
      assert before + s + after == s;
    }
  }

  lemma TrimSpaceKeeps(s: string)
    requires Tight(s)
    ensures TrimSpace(s) == s
  {
  }

  lemma {:induction false} TrimSpaceOfSpace(s: string)
    requires AllSpace(s)
    ensures TrimSpace(s) == ""
  {
    if s != "" {
      TrimSpaceOfSpace(s[1..]);
    }
  }

  /** What `TrimSpace` takes off is space, and what it leaves is tight. */
  lemma {:induction false} TrimSpaceCuts(s: string) returns (before: string, after: string)
    ensures AllSpace(before) && AllSpace(after) && Tight(TrimSpace(s)) && s == before + TrimSpace(s) + after
    decreases |s|
  {
    before, after := "", "";
    if s == "" || Tight(s) {
      TrimSpaceKeeps(s);
    } else if IsSpace(s[0]) {
      before, after := TrimSpaceCuts(s[1..]);
      assert s == [s[0]] + s[1..];
      before := [s[0]] + before;
    } else {
      var n := |s| - 1;
      assert TrimLeft(s) == s && TrimLeft(s[..n]) == s[..n] && TrimSpace(s) == TrimSpace(s[..n]);
      before, after := TrimSpaceCuts(s[..n]);
      assert s == s[..n] + [s[n]];
      after := after + [s[n]];
    }
  }

  /** Two texts that meet at their first `stop` character agree on both sides of it. */
  lemma {:induction false} CutIsUnique(a: string, b: string, x: string, y: string, stop: char)
    requires stop !in a && stop !in b
    requires a + [stop] + x == b + [stop] + y
    ensures a == b && x == y
  {
    var s := a + [stop] + x;
    assert s[|a|] == stop && s[|b|] == stop;
    assert forall i | 0 <= i < |a| :: s[i] == a[i] != stop;
    assert forall i | 0 <= i < |b| :: s[i] == b[i] != stop;
    assert a == s[..|a|] && b == s[..|b|];
    assert x == s[|a| + 1..] && y == s[|b| + 1..];
  }

  /** `strings.Split` on one character. */
  function Split(s: string, sep: char): (parts: seq<string>)
    ensures |parts| > 0 && forall i :: 0 <= i < |parts| ==> sep !in parts[i]
  {
    if s == "" then [""]
    else
      var rest := Split(s[1..], sep);
      if s[0] == sep then [""] + rest else [[s[0]] + rest[0]] + rest[1..]
  }
}
