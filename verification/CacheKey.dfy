/** The identity of an upstream request (cmd/devserver/cache.go). */
module CacheKeys {
  import opened Sorting
  import opened Text

  // ---- strings.Join undoes strings.Split ----

  function Join(parts: seq<string>, sep: char): string {
    if parts == [] then ""
    else if |parts| == 1 then parts[0]
    else parts[0] + ([sep] + Join(parts[1..], sep))
  }

  lemma {:induction false} JoinOfSplit(s: string, sep: char)
    ensures Join(Split(s, sep), sep) == s
  {
    if s != "" {
      var rest := Split(s[1..], sep);
      JoinOfSplit(s[1..], sep);
      assert s == [s[0]] + s[1..];
      if s[0] == sep {
        assert ([""] + rest)[1..] == rest;
      } else {
        assert ([[s[0]] + rest[0]] + rest[1..])[1..] == rest[1..];
      }
    }
  }

  lemma JoinHasSeparator(p: seq<string>, sep: char)
    requires |p| > 1
    ensures sep in Join(p, sep)
  {
  }

  lemma {:induction false} JoinIsInjective(p: seq<string>, q: seq<string>, sep: char)
    requires |p| > 0 && |q| > 0
    requires forall i :: 0 <= i < |p| ==> sep !in p[i]
    requires forall i :: 0 <= i < |q| ==> sep !in q[i]
    requires Join(p, sep) == Join(q, sep)
    ensures p == q
    decreases |p|
  {
    if |p| == 1 {
      if |q| > 1 { JoinHasSeparator(q, sep); }
    } else if |q| == 1 {
      JoinHasSeparator(p, sep);
    } else {
      var x, y := Join(p[1..], sep), Join(q[1..], sep);
      assert Join(p, sep) == p[0] + [sep] + x && Join(q, sep) == q[0] + [sep] + y;
      CutIsUnique(p[0], q[0], x, y, sep);
      JoinIsInjective(p[1..], q[1..], sep);
      assert p == [p[0]] + p[1..] && q == [q[0]] + q[1..];
    }
  }

  // ---- The key ----

  /** `canonicalQuery`. */
  function CanonicalQuery(rawQuery: string): string {
    if rawQuery == "" then "" else Join(Sort(Split(rawQuery, '&')), '&')
  }

  /** Two queries canonicalise alike exactly when they have the same `&`-separated parts, counted with repetition. */
  lemma {:induction false} CanonicalExactly(x: string, y: string)
    ensures CanonicalQuery(x) == CanonicalQuery(y) <==> multiset(Split(x, '&')) == multiset(Split(y, '&'))
  {
    var p, q := Sort(Split(x, '&')), Sort(Split(y, '&'));
    EmptyQuery();
    assert CanonicalQuery(x) == Join(p, '&') && CanonicalQuery(y) == Join(q, '&');
    SortedParts(x);
    SortedParts(y);
    if CanonicalQuery(x) == CanonicalQuery(y) {
      JoinIsInjective(p, q, '&');
    }
    if multiset(Split(x, '&')) == multiset(Split(y, '&')) {
      AscendingIsUnique(p, q);
    }
  }

  lemma EmptyQuery()
    ensures Join(Sort(Split("", '&')), '&') == ""
  {
  }

  lemma {:induction false} SortedParts(x: string)
    ensures var p := Sort(Split(x, '&'));
            |p| > 0 && forall i :: 0 <= i < |p| ==> '&' !in p[i]
  {
    var s := Split(x, '&');
    var p := Sort(s);
    assert |p| == |multiset(p)| == |multiset(s)| == |s|;
    forall i | 0 <= i < |p| ensures '&' !in p[i] {
      assert p[i] in multiset(p);
      assert p[i] in multiset(s);
    }
  }

  const BEARER := "Bearer "

  /** The account behind an Authorization header, before it is hashed. */
  function TokenIdentity(token: string): string {
    TrimSpace(if HasPrefix(token, BEARER) then token[|BEARER|..] else token)
  }

  /** `hashToken`, over the truncated hex digest `hash`. */
  function HashToken(hash: string -> string, token: string): string {
    if TokenIdentity(token) == "" then "anonymous" else hash(TokenIdentity(token))
  }

  const NUL := '\0'

  datatype Request = Request(verb: string, path: string, rawQuery: string, token: string, body: string)

  /** Each part followed by the separator. */
  function Written(parts: seq<string>): string {
    if parts == [] then "" else Written(parts[..|parts| - 1]) + parts[|parts| - 1] + [NUL]
  }

  function KeyParts(hash: string -> string, r: Request): seq<string> {
    [r.verb, r.path, CanonicalQuery(r.rawQuery), HashToken(hash, r.token)]
  }

  /** The bytes `CacheKey` digests. */
  function KeyBytes(hash: string -> string, r: Request): string { Written(KeyParts(hash, r)) + r.body }

  /** `CacheKey` as it feeds the digest. */
  method WriteKey(hash: string -> string, r: Request) returns (written: string)
    ensures written == KeyBytes(hash, r)
  {
    var parts := KeyParts(hash, r);
    written := "";
    for i := 0 to |parts|
      invariant written == Written(parts[..i])
    {
      assert parts[..i + 1][..i] == parts[..i];
      written := written + parts[i];
      written := written + [NUL];
    }
    assert parts[..|parts|] == parts;
    written := written + r.body;
  }

  function Field(part: string, rest: string): string { part + [NUL] + rest }

  lemma {:induction false} FourFields(a: string, b: string, c: string, d: string, body: string)
    ensures Written([a, b, c, d]) + body == Field(a, Field(b, Field(c, Field(d, body))))
  {
    var w1, w2, w3 := Written([a]), Written([a, b]), Written([a, b, c]);
    assert [a, b, c, d][..3] == [a, b, c] && [a, b, c][..2] == [a, b] && [a, b][..1] == [a] && [a][..0] == [];
    assert Written([]) == "" && "" + a == a && w1 == a + [NUL];
    assert w3 + d + [NUL] + body == w3 + Field(d, body);
    assert w2 + c + [NUL] + Field(d, body) == w2 + Field(c, Field(d, body));
    assert w1 + b + [NUL] + Field(c, Field(d, body)) == w1 + Field(b, Field(c, Field(d, body)));
  }

  predicate NulFree(r: Request) { NUL !in r.verb && NUL !in r.path && NUL !in r.rawQuery }

  lemma {:induction false} CanonicalIsNulFree(q: string)
    requires NUL !in q
    ensures NUL !in CanonicalQuery(q)
  {
    if q != "" {
      var s := Split(q, '&');
      var p := Sort(s);
      SplitIsNulFree(q);
      forall i | 0 <= i < |p| ensures NUL !in p[i] {
        assert p[i] in multiset(p);
        assert p[i] in multiset(s);
      }
      JoinIsNulFree(p);
    }
  }

  lemma {:induction false} SplitIsNulFree(q: string)
    requires NUL !in q
    ensures forall i :: 0 <= i < |Split(q, '&')| ==> NUL !in Split(q, '&')[i]
  {
    if q != "" {
      assert forall c :: c in q[1..] ==> c in q;
      SplitIsNulFree(q[1..]);
      var rest := Split(q[1..], '&');
      assert NUL !in [q[0]] + rest[0];
      assert Split(q, '&') == [""] + rest || Split(q, '&') == [[q[0]] + rest[0]] + rest[1..];
    }
  }

  lemma {:induction false} JoinIsNulFree(p: seq<string>)
    requires forall i :: 0 <= i < |p| ==> NUL !in p[i]
    ensures NUL !in Join(p, '&')
    decreases |p|
  {
    if |p| > 1 {
      JoinIsNulFree(p[1..]);
    }
  }

  /**
   * Two requests share a cache entry exactly when method, path, query parts, account and body agree. `hash` need only
   * tell these two accounts apart, and look like the hex text it is.
   */
  lemma {:induction false} CacheIdentity(hash: string -> string, x: Request, y: Request)
    requires NulFree(x) && NulFree(y)
    requires forall t :: t == TokenIdentity(x.token) || t == TokenIdentity(y.token) ==>
               |hash(t)| == 16 && NUL !in hash(t)
    requires hash(TokenIdentity(x.token)) == hash(TokenIdentity(y.token)) ==>
               TokenIdentity(x.token) == TokenIdentity(y.token)
    ensures KeyBytes(hash, x) == KeyBytes(hash, y) <==>
              && x.verb == y.verb && x.path == y.path
                   && multiset(Split(x.rawQuery, '&')) == multiset(Split(y.rawQuery, '&'))
              && TokenIdentity(x.token) == TokenIdentity(y.token) && x.body == y.body
  {
    hide TokenIdentity, CanonicalQuery, Split;
    CanonicalExactly(x.rawQuery, y.rawQuery);
    CanonicalIsNulFree(x.rawQuery);
    CanonicalIsNulFree(y.rawQuery);
    var hx, hy := HashToken(hash, x.token), HashToken(hash, y.token);
    assert |"anonymous"| == 9 && NUL !in "anonymous";
    assert hx == hy <==> TokenIdentity(x.token) == TokenIdentity(y.token);
    var qx, qy := CanonicalQuery(x.rawQuery), CanonicalQuery(y.rawQuery);
    FourFields(x.verb, x.path, qx, hx, x.body);
    FourFields(y.verb, y.path, qy, hy, y.body);
    if KeyBytes(hash, x) == KeyBytes(hash, y) {
      CutIsUnique(x.verb, y.verb, Field(x.path, Field(qx, Field(hx, x.body))),
          Field(y.path, Field(qy, Field(hy, y.body))), NUL);
      CutIsUnique(x.path, y.path, Field(qx, Field(hx, x.body)), Field(qy, Field(hy, y.body)), NUL);
      CutIsUnique(qx, qy, Field(hx, x.body), Field(hy, y.body), NUL);
      CutIsUnique(hx, hy, x.body, y.body, NUL);
    }
  }

  // ---- Accounts, spelled out ----

  /** The account a token names: what is left of it without the word Bearer in front and the space around. */
  ghost predicate Names(token: string, account: string) {
    && Tight(account)
    && exists before: string, after: string ::
         && AllSpace(before) && AllSpace(after)
         && token == (if "Bearer " <= token then "Bearer " else "") + (before + account + after)
  }

  lemma {:induction false} NamesExactly(token: string, account: string)
    ensures Names(token, account) <==> TokenIdentity(token) == account
  {
    hide TrimSpace;
    var bare := if "Bearer " <= token then token[|BEARER|..] else token;
    var prefix := if "Bearer " <= token then "Bearer " else "";
    assert token == prefix + bare && TokenIdentity(token) == TrimSpace(bare);
    if Names(token, account) {
      var before: string, after: string :|
        AllSpace(before) && AllSpace(after) && token == prefix + (before + account + after);
      assert token[|prefix|..] == before + account + after && token[|prefix|..] == bare;
      if account == "" {
        TrimSpaceOfSpace(bare);
      } else {
        TrimSpaceStrips(before, account, after);
      }
    }
    if TokenIdentity(token) == account {
      var before, after := TrimSpaceCuts(bare);
      assert token == prefix + (before + account + after);
    }
  }

  /**
   * Two requests share a cache entry exactly when method, path, query parts, account and body agree, whatever spelling
   * of the account their tokens use.
   */
  lemma {:induction false} SharedExactly(hash: string -> string, x: Request, y: Request, a: string, b: string)
    requires NulFree(x) && NulFree(y) && Names(x.token, a) && Names(y.token, b)
    requires |hash(a)| == |hash(b)| == 16 && NUL !in hash(a) && NUL !in hash(b) && (hash(a) == hash(b) ==> a == b)
    ensures KeyBytes(hash, x) == KeyBytes(hash, y) <==>
              && x.verb == y.verb && x.path == y.path && x.body == y.body && a == b
              && multiset(Split(x.rawQuery, '&')) == multiset(Split(y.rawQuery, '&'))
  {
    hide Names, TokenIdentity, KeyBytes, Split;
    NamesExactly(x.token, a);
    NamesExactly(y.token, b);
    CacheIdentity(hash, x, y);
  }

  /** Bearer tokens are the same account exactly when they are the same token. */
  lemma {:induction false} BearerTokensExactly(hash: string -> string, r: Request, s: string, t: string)
    requires NulFree(r) && s != "" && t != "" && Tight(s) && Tight(t)
    requires |hash(s)| == |hash(t)| == 16 && NUL !in hash(s) && NUL !in hash(t) && (hash(s) == hash(t) ==> s == t)
    ensures KeyBytes(hash, r.(token := "Bearer " + s)) == KeyBytes(hash, r.(token := "Bearer " + t)) <==> s == t
  {
    hide KeyBytes, Names, Split;
    BearerNamesItself(s);
    BearerNamesItself(t);
    SharedExactly(hash, r.(token := "Bearer " + s), r.(token := "Bearer " + t), s, t);
  }

  lemma BearerNames(before: string, s: string, after: string)
    requires AllSpace(before) && AllSpace(after) && Tight(s)
    ensures Names("Bearer " + (before + s + after), s)
    ensures !("Bearer " <= before + s + after) ==> Names(before + s + after, s)
  {
    assert "" + (before + s + after) == before + s + after;
  }

  lemma BearerNamesItself(s: string)
    requires Tight(s)
    ensures Names("Bearer " + s, s)
  {
    assert "" + s + "" == s;
    BearerNames("", s, "");
  }

  /** The word Bearer and white space do not make another account, and without anything else nobody is named. */
  lemma {:induction false} SpellingsShare(hash: string -> string, r: Request, before: string, s: string, after: string)
    requires AllSpace(before) && AllSpace(after) && Tight(s)
    ensures KeyBytes(hash, r.(token := "Bearer " + (before + s + after))) == KeyBytes(hash, r.(token := "Bearer " + s))
    ensures !("Bearer " <= s) && !("Bearer " <= before + s + after) ==>
              && KeyBytes(hash, r.(token := before + s + after)) == KeyBytes(hash, r.(token := s))
              && KeyBytes(hash, r.(token := s)) == KeyBytes(hash, r.(token := "Bearer " + s))
    ensures s == "" ==> KeyBytes(hash, r.(token := before + s + after)) ==
                        Written([r.verb, r.path, CanonicalQuery(r.rawQuery), "anonymous"]) + r.body
  {
    hide Written, CanonicalQuery, Names, TokenIdentity;
    BearerNames(before, s, after);
    BearerNames("", s, "");
    assert "" + s + "" == s;
    NamesExactly("Bearer " + (before + s + after), s);
    NamesExactly("Bearer " + s, s);
    NamesExactly(before + s + after, s);
    NamesExactly(s, s);
    if s == "" {
      assert before + s + after == "" || IsSpace((before + s + after)[0]);
    }
  }
}
