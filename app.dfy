/**
  The application shell of app.js: the development switch (app.js:11),
  the CORS origin decision over the allowed-origins list (app.js:23-91),
  with the anchored regular expression it builds for a wildcard entry, and
  the global error handler that answers a CORS error with 403 and any other
  error with 500 (app.js:198-214).
*/
module App {
  import opened Js

  const PRODUCTION: string := "production"

  /** `process.env.NODE_ENV !== 'production'`; an unset variable is None. */
  function IsDevelopment(nodeEnv: Option<string>): bool {
    nodeEnv != Some(PRODUCTION)
  }

  const LOCALHOST: string := "http://localhost"
  const LOOPBACK: string := "http://127.0.0.1"

  const ALLOWED_ORIGINS: seq<string> := [
    LOCALHOST,
    LOOPBACK,
    "null",
    "https://chennai-fe.vercel.app",
    "https://chennai-frontend.vercel.app",
    "https://daikin-n9wy.onrender.com",
    "https://16f6cc8fd36d.ngrok-free.app",
    HTTPS + "*" + NGROK_FREE,   // https://*.ngrok-free.app
    HTTPS + "*" + NGROK         // https://*.ngrok.io
  ]

  const HTTPS: string := "https://"
  const NGROK_FREE: string := ".ngrok-free.app"
  const NGROK: string := ".ngrok.io"

  // ---------------------------------------------------------------------
  // The regular expressions built for wildcard entries
  // ---------------------------------------------------------------------

  /** A pattern character: a literal or `.`. */
  datatype Atom = Ch(c: char) | Dot

  /** One pattern element: an atom, repeated any number of times when
      followed by `*`. */
  datatype Tok = Tok(atom: Atom, star: bool)

  function AtomOf(c: char): Atom {
    if c == '.' then Dot else Ch(c)
  }

  /** The tokens of a pattern, or None where a `*` has nothing to repeat
      (`new RegExp` throws a SyntaxError there). */
  function Compile(p: string): Option<seq<Tok>>
    decreases |p|
  {
    if |p| == 0 then Some([])
    else if p[0] == '*' then None
    else if |p| > 1 && p[1] == '*' then
      match Compile(p[2..])
      case None => None
      case Some(ts) => Some([Tok(AtomOf(p[0]), true)] + ts)
    else
      match Compile(p[1..])
      case None => None
      case Some(ts) => Some([Tok(AtomOf(p[0]), false)] + ts)
  }

  /** The characters `.` does not match. */
  predicate LineTerminator(c: char) {
    c == '\n' || c == '\r' || c == '\U{2028}' || c == '\U{2029}'
  }

  predicate AtomMatches(a: Atom, c: char) {
    match a
    case Ch(x) => c == x
    case Dot => !LineTerminator(c)
  }

  /** The whole of `s` matches the tokens (the regex is anchored by `^` and `$`). */
  predicate Matches(ts: seq<Tok>, s: string)
    decreases |ts| + |s|
  {
    if |ts| == 0 then |s| == 0
    else if ts[0].star then
      Matches(ts[1..], s) || (|s| > 0 && AtomMatches(ts[0].atom, s[0]) && Matches(ts, s[1..]))
    else
      |s| > 0 && AtomMatches(ts[0].atom, s[0]) && Matches(ts[1..], s[1..])
  }

  /** `new RegExp('^' + pattern + '$').test(s)` */
  predicate RegexTest(pattern: string, s: string) {
    match Compile(pattern)
    case None => false
    case Some(ts) => Matches(ts, s)
  }

  // ---------------------------------------------------------------------
  // The origin decision
  // ---------------------------------------------------------------------

  /** `s.replace(/\/$/, '')`: one trailing slash removed. */
  function StripSlash(s: string): string {
    if |s| > 0 && s[|s| - 1] == '/' then s[..|s| - 1] else s
  }

  /** The `allowedOrigins.some(...)` callback for one entry. */
  predicate EntryAllows(allowed: string, origin: string) {
    var cleanOrigin := StripSlash(origin);
    var cleanAllowed := StripSlash(allowed);
    if Includes(cleanAllowed, "*") then
      RegexTest(ReplaceFirst(cleanAllowed, "*", ".*"), cleanOrigin)
    else
      cleanOrigin == cleanAllowed
      || ((allowed == LOCALHOST || allowed == LOOPBACK) && StartsWith(cleanOrigin, cleanAllowed))
  }

  /** `isAllowed` */
  predicate Listed(origin: string) {
    exists i | 0 <= i < |ALLOWED_ORIGINS| :: EntryAllows(ALLOWED_ORIGINS[i], origin)
  }

  /** What the origin callback passes on: `callback(null, true)` or an error. */
  datatype Verdict = Allow | Deny(error: string)

  /** The `origin` option of the CORS configuration; an absent Origin
      header is None. */
  function OriginCheck(origin: Option<string>, nodeEnv: Option<string>): Verdict {
    if origin.None? || origin.value == "" then Allow
    else if origin.value == "null" then Allow
    else if Listed(origin.value) then Allow
    else if IsDevelopment(nodeEnv) then Allow
    else Deny("CORS: Origin " + origin.value + " not allowed")
  }

  // ---------------------------------------------------------------------
  // The global error handler
  // ---------------------------------------------------------------------

  datatype ErrorBody =
    | Violation(error: string, details: string, allowedOrigins: seq<string>)
    | Internal(error: string, message: string)

  datatype Reply = Reply(status: nat, body: ErrorBody)

  function HandleError(message: string): Reply {
    if Includes(message, "CORS") then Reply(403, Violation("CORS policy violation", message, ALLOWED_ORIGINS))
    else Reply(500, Internal("Internal server error", message))
  }

  // ---------------------------------------------------------------------
  // Lemmas
  // ---------------------------------------------------------------------

  /** An origin is refused only in production, and only when it is present,
      not the text `null` and matched by no entry; the refusal names the
      origin and the error handler turns it into a 403 carrying that text. */
  lemma OriginCheckMeaning(origin: Option<string>, nodeEnv: Option<string>)
    ensures OriginCheck(origin, nodeEnv).Deny? <==>
      nodeEnv == Some(PRODUCTION) && origin.Some? && origin.value != "" && origin.value != "null" && !Listed(origin.value)
    ensures OriginCheck(origin, nodeEnv).Deny? ==>
      var e := OriginCheck(origin, nodeEnv).error;
      && e == "CORS: Origin " + origin.value + " not allowed"
      && HandleError(e).status == 403 && HandleError(e).body.details == e
  {
    if OriginCheck(origin, nodeEnv).Deny? {
      IncludesWitness(OriginCheck(origin, nodeEnv).error, "CORS", 0);
    }
  }

  /** The handler answers 403 exactly for messages mentioning CORS, and
      500 otherwise, echoing the message either way. */
  lemma HandleErrorMeaning(message: string)
    ensures HandleError(message).status == 403 <==> exists i :: OccursAt(message, "CORS", i)
    ensures HandleError(message).status == 403 || HandleError(message).status == 500
    ensures HandleError(message).body.Violation? ==> HandleError(message).body.details == message
    ensures HandleError(message).body.Internal? ==> HandleError(message).body.message == message
  {
    IncludesAt(message, "CORS");
  }

  /** Pattern text matched literally, `.` standing for any character
      but a line terminator. */
  predicate Fits(p: string, s: string) {
    |p| == |s| && forall i | 0 <= i < |p| :: AtomMatches(AtomOf(p[i]), s[i])
  }

  predicate NoStar(p: string) {
    forall i | 0 <= i < |p| :: p[i] != '*'
  }

  lemma StarAbsent(p: string)
    requires '*' !in p
    ensures NoStar(p)
  {
  }

  predicate NoTerminator(s: string) {
    forall i | 0 <= i < |s| :: !LineTerminator(s[i])
  }

  function LitToks(p: string): (ts: seq<Tok>)
    ensures |ts| == |p|
  {
    seq(|p|, i requires 0 <= i < |p| => Tok(AtomOf(p[i]), false))
  }

  lemma LitToksCons(p: string)
    requires |p| > 0
    ensures LitToks(p) == [Tok(AtomOf(p[0]), false)] + LitToks(p[1..])
  {
  }

  /** A leading character without a following `*` compiles to one token. */
  lemma CompileStep(x: string)
    requires |x| > 0 && x[0] != '*' && (|x| > 1 ==> x[1] != '*')
    ensures Compile(x) == match Compile(x[1..])
      case None => None
      case Some(ts) => Some([Tok(AtomOf(x[0]), false)] + ts)
  {
  }

  lemma {:induction false} CompileLiteral(p: string, rest: string)
    requires NoStar(p) && (|rest| == 0 || rest[0] != '*')
    ensures Compile(p + rest).Some? <==> Compile(rest).Some?
    ensures Compile(rest).Some? ==> Compile(p + rest).value == LitToks(p) + Compile(rest).value
    decreases |p|
  {
    if |p| > 0 {
      var x := p + rest;
      assert x[0] == p[0];
      assert |x| > 1 ==> x[1] != '*' by {
        if |p| > 1 { assert x[1] == p[1]; } else if |x| > 1 { assert x[1] == rest[0]; }
      }
      assert x[1..] == p[1..] + rest;
      assert NoStar(p[1..]) by {
        forall i | 0 <= i < |p| - 1 ensures p[1..][i] != '*' {
          assert p[1..][i] == p[i + 1];
        }
      }
      CompileLiteral(p[1..], rest);
      CompileStep(x);
      LitToksCons(p);
      if Compile(rest).Some? {
        var ts := Compile(rest).value;
        assert [Tok(AtomOf(p[0]), false)] + (LitToks(p[1..]) + ts) == LitToks(p) + ts;
      }
    } else {
      assert p + rest == rest;
    }
  }

  lemma {:induction false} MatchesLiteral(p: string, rest: seq<Tok>, s: string)
    ensures Matches(LitToks(p) + rest, s) <==> |s| >= |p| && Fits(p, s[..|p|]) && Matches(rest, s[|p|..])
    decreases |p|
  {
    if |p| > 0 {
      var ts := LitToks(p) + rest;
      assert ts[0] == Tok(AtomOf(p[0]), false);
      assert ts[1..] == LitToks(p[1..]) + rest;
      if |s| > 0 {
        MatchesLiteral(p[1..], rest, s[1..]);
        if |s| >= |p| {
          assert s[1..][|p| - 1..] == s[|p|..];
          assert s[1..][..|p| - 1] == s[1..|p|];
          assert Fits(p, s[..|p|]) <==> AtomMatches(AtomOf(p[0]), s[0]) && Fits(p[1..], s[1..|p|]) by {
            if AtomMatches(AtomOf(p[0]), s[0]) && Fits(p[1..], s[1..|p|]) {
              forall i | 0 <= i < |p| ensures AtomMatches(AtomOf(p[i]), s[..|p|][i]) {
                if i > 0 {
                  assert p[1..][i - 1] == p[i] && s[1..|p|][i - 1] == s[i];
                }
              }
            }
          }
        }
      }
    } else {
      assert LitToks(p) + rest == rest;
    }
  }

  lemma {:induction false} MatchesStarLiteral(q: string, s: string)
    ensures Matches([Tok(Dot, true)] + LitToks(q), s) <==>
      |s| >= |q| && NoTerminator(s[..|s| - |q|]) && Fits(q, s[|s| - |q|..])
    decreases |s|
  {
    var ts := [Tok(Dot, true)] + LitToks(q);
    assert ts[1..] == LitToks(q) + [];
    MatchesLiteral(q, [], s);
    if |s| > 0 {
      MatchesStarLiteral(q, s[1..]);
      if |s| > |q| {
        assert s[1..][..|s| - 1 - |q|] == s[1..|s| - |q|];
        assert s[1..][|s| - 1 - |q|..] == s[|s| - |q|..];
        var k := |s| - |q|;
        var head := s[..k];
        assert NoTerminator(head) <==> !LineTerminator(s[0]) && NoTerminator(s[1..k]) by {
          if !LineTerminator(s[0]) && NoTerminator(s[1..k]) {
            forall i | 0 <= i < k ensures !LineTerminator(head[i]) {
              if i > 0 {
                assert s[1..k][i - 1] == s[i];
              }
            }
          }
        }
      }
    }
  }

  /** A pattern with one `.*` between two star-free parts matches a string
      exactly when the string starts with the first part and ends with the
      second (each `.` there standing for any character but a line
      terminator) and what lies between holds no line terminator. */
  lemma WildcardMeaning(p: string, q: string, s: string)
    requires NoStar(p) && NoStar(q)
    ensures RegexTest(p + ".*" + q, s) <==>
      && |s| >= |p| + |q|
      && Fits(p, s[..|p|]) && Fits(q, s[|s| - |q|..])
      && NoTerminator(s[|p|..|s| - |q|])
  {
    var rest := ".*" + q;
    assert p + ".*" + q == p + rest;
    assert rest[2..] == q && rest[1] == '*';
    CompileLiteral(q, []);
    assert q + [] == q && LitToks(q) + [] == LitToks(q);
    assert Compile(rest) == Some([Tok(Dot, true)] + LitToks(q));
    CompileLiteral(p, rest);
    MatchesLiteral(p, [Tok(Dot, true)] + LitToks(q), s);
    if |s| >= |p| {
      var t := s[|p|..];
      MatchesStarLiteral(q, t);
      if |t| >= |q| {
        assert t[..|t| - |q|] == s[|p|..|s| - |q|];
        assert t[|t| - |q|..] == s[|s| - |q|..];
      }
    }
  }

  /** The first `*` of an entry is the one after its star-free head. */
  lemma {:induction false} FirstStar(pre: string, post: string)
    requires NoStar(pre)
    ensures IndexOf(pre + "*" + post, "*") == Some(|pre|)
    decreases |pre|
  {
    var s := pre + "*" + post;
    if |pre| == 0 {
      assert s[..1] == "*";
    } else {
      assert s[..1] != "*" by { assert s[0] == pre[0]; }
      assert s[1..] == pre[1..] + "*" + post;
      FirstStar(pre[1..], post);
    }
  }

  lemma {:induction false} StarFree(s: string)
    requires NoStar(s)
    ensures !Includes(s, "*")
    decreases |s|
  {
    if |s| > 0 {
      assert s[..1] != "*" by { assert s[..1][0] == s[0]; }
      StarFree(s[1..]);
    }
  }

  /** A wildcard entry without a trailing slash, `pre*post`, admits an
      origin exactly when the origin, its trailing slash removed, matches
      `pre.*post`. */
  lemma WildcardEntry(pre: string, post: string, origin: string)
    requires NoStar(pre) && NoStar(post) && |post| > 0 && post[|post| - 1] != '/'
    ensures EntryAllows(pre + "*" + post, origin) <==> RegexTest(pre + ".*" + post, StripSlash(origin))
  {
    var e := pre + "*" + post;
    assert e[|e| - 1] == post[|post| - 1];
    assert StripSlash(e) == e;
    FirstStar(pre, post);
    IncludesWitness(e, "*", |pre|);
    assert e[..|pre|] == pre && e[|pre| + 1..] == post;
  }

  /** A wildcard entry admits the origins whose slash-stripped text the
      pattern covers. */
  lemma WildcardAllows(e: string, pre: string, post: string, origin: string)
    requires e == pre + "*" + post
    requires NoStar(pre) && NoStar(post) && |post| > 0 && post[|post| - 1] != '/'
    ensures EntryAllows(e, origin) <==> UnderWildcard(StripSlash(origin), pre, post)
  {
    WildcardEntry(pre, post, origin);
    WildcardMeaning(pre, post, StripSlash(origin));
  }

  /** An entry without `*` or a trailing slash admits the origins equal to
      it once their trailing slash is removed, and, for the two local
      entries, every origin that begins with it. */
  lemma PlainEntry(entry: string, origin: string)
    requires NoStar(entry) && |entry| > 0 && entry[|entry| - 1] != '/'
    ensures EntryAllows(entry, origin) <==>
      StripSlash(origin) == entry
      || ((entry == LOCALHOST || entry == LOOPBACK) && StartsWith(StripSlash(origin), entry))
  {
    StarFree(entry);
  }

  /** How a wildcard entry's pattern reads an origin with the slash removed. */
  predicate UnderWildcard(c: string, pre: string, post: string) {
    && |c| >= |pre| + |post|
    && Fits(pre, c[..|pre|]) && Fits(post, c[|c| - |post|..])
    && NoTerminator(c[|pre|..|c| - |post|])
  }

  /** The first seven entries are plain. */
  lemma PlainEntries(i: nat, origin: string)
    requires i < 7
    ensures EntryAllows(ALLOWED_ORIGINS[i], origin) <==>
      StripSlash(origin) == ALLOWED_ORIGINS[i] || (i < 2 && StartsWith(StripSlash(origin), ALLOWED_ORIGINS[i]))
  {
    var e := ALLOWED_ORIGINS[i];
    assert '*' !in e && |e| > 0 && e[|e| - 1] != '/';
    StarAbsent(e);
    PlainEntry(e, origin);
  }

  /** The last two entries are the ngrok wildcards. */
  lemma NgrokFreeEntry(origin: string)
    ensures EntryAllows(ALLOWED_ORIGINS[7], origin) <==> UnderWildcard(StripSlash(origin), HTTPS, NGROK_FREE)
  {
    assert '*' !in HTTPS && '*' !in NGROK_FREE;
    StarAbsent(HTTPS);
    StarAbsent(NGROK_FREE);
    WildcardAllows(ALLOWED_ORIGINS[7], HTTPS, NGROK_FREE, origin);
  }

  lemma NgrokEntry(origin: string)
    ensures EntryAllows(ALLOWED_ORIGINS[8], origin) <==> UnderWildcard(StripSlash(origin), HTTPS, NGROK)
  {
    assert '*' !in HTTPS && '*' !in NGROK;
    StarAbsent(HTTPS);
    StarAbsent(NGROK);
    WildcardAllows(ALLOWED_ORIGINS[8], HTTPS, NGROK, origin);
  }

  /** An exact match with one of the seven plain entries. */
  predicate PlainListed(c: string) {
    exists i | 0 <= i < 7 :: c == ALLOWED_ORIGINS[i]
  }

  /** The list in one statement: with its trailing slash removed, an origin
      is allowed when it equals one of the seven plain entries, begins with
      `http://localhost` or `http://127.0.0.1` (any port, but any other
      continuation too), or matches `https://.*.ngrok-free.app` or
      `https://.*.ngrok.io`, whose dots match any character. */
  lemma ListedMeaning(origin: string)
    ensures var c := StripSlash(origin);
      Listed(origin) <==>
        || PlainListed(c)
        || StartsWith(c, LOCALHOST) || StartsWith(c, LOOPBACK)
        || UnderWildcard(c, HTTPS, NGROK_FREE) || UnderWildcard(c, HTTPS, NGROK)
  {
    var c := StripSlash(origin);
    NgrokFreeEntry(origin);
    NgrokEntry(origin);
    if Listed(origin) {
      var i :| 0 <= i < |ALLOWED_ORIGINS| && EntryAllows(ALLOWED_ORIGINS[i], origin);
      if i < 7 {
        PlainEntries(i, origin);
      }
    }
    if PlainListed(c) {
      var i :| 0 <= i < 7 && c == ALLOWED_ORIGINS[i];
      PlainEntries(i, origin);
    }
    if StartsWith(c, LOCALHOST) {
      PlainEntries(0, origin);
    }
    if StartsWith(c, LOOPBACK) {
      PlainEntries(1, origin);
    }
    assert EntryAllows(ALLOWED_ORIGINS[7], origin) ==> Listed(origin);
    assert EntryAllows(ALLOWED_ORIGINS[8], origin) ==> Listed(origin);
  }

  /** Whatever follows `http://localhost` is let through: any port
      (`:5173`), but also another host that merely begins that way
      (`http://localhost.example.com`). */
  lemma LocalhostPrefixAllowed(rest: string, nodeEnv: Option<string>)
    ensures OriginCheck(Some(LOCALHOST + rest), nodeEnv) == Allow
  {
    var a := LOCALHOST + rest;
    ListedMeaning(a);
    assert StripSlash(a)[..|LOCALHOST|] == LOCALHOST;
  }

  /** Likewise for `http://127.0.0.1`. */
  lemma LoopbackPrefixAllowed(rest: string, nodeEnv: Option<string>)
    ensures OriginCheck(Some(LOOPBACK + rest), nodeEnv) == Allow
  {
    var a := LOOPBACK + rest;
    ListedMeaning(a);
    assert StripSlash(a)[..|LOOPBACK|] == LOOPBACK;
  }

  /** A plain entry followed by a slash is let through. */
  lemma TrailingSlashAllowed(i: nat, nodeEnv: Option<string>)
    requires i < 7
    ensures OriginCheck(Some(ALLOWED_ORIGINS[i] + "/"), nodeEnv) == Allow
  {
    var o := ALLOWED_ORIGINS[i] + "/";
    assert StripSlash(o) == ALLOWED_ORIGINS[i];
    ListedMeaning(o);
  }

  /** Any origin made of `https://`, a host part and an ending that fits
      `.ngrok-free.app` with its dots read as wildcards is let through. */
  lemma NgrokFreeAllowed(sub: string, tail: string, nodeEnv: Option<string>)
    requires NoTerminator(sub) && Fits(NGROK_FREE, tail)
    ensures OriginCheck(Some(HTTPS + sub + tail), nodeEnv) == Allow
  {
    var head := HTTPS + sub;
    var o := head + tail;
    assert o[|o| - 1] == tail[|tail| - 1] == 'p';
    var c := StripSlash(o);
    assert c == o;
    ListedMeaning(o);
    assert Fits(HTTPS, HTTPS);
    assert o[..|head|] == head && o[|head|..] == tail;
    assert head[..|HTTPS|] == HTTPS && head[|HTTPS|..] == sub;
    assert o[..|HTTPS|] == HTTPS;
    assert o[|HTTPS|..|o| - |NGROK_FREE|] == sub;
    assert UnderWildcard(c, HTTPS, NGROK_FREE);
  }

  /** The dots of that entry are not escaped, so `-ngrok-free-app` fits
      too: `https://evil-ngrok-free-app`, no host under ngrok-free.app, is
      let through. */
  lemma UnescapedDots()
    ensures Fits(NGROK_FREE, "-ngrok-free-app") && "-ngrok-free-app" != NGROK_FREE
  {
    assert "-ngrok-free-app"[0] != NGROK_FREE[0];
  }

  lemma PrefixOfPrefix(c: string, p: string, q: string)
    requires StartsWith(p, q) && StartsWith(c, p)
    ensures StartsWith(c, q)
  {
    assert c[..|q|] == p[..|p|][..|q|];
  }

  /** No plain entry but `null` fails to begin with `http`. */
  lemma PlainEntriesHttp(c: string)
    requires c != "null" && !StartsWith(c, "http")
    ensures !PlainListed(c)
  {
    forall i | 0 <= i < 7 ensures c != ALLOWED_ORIGINS[i] {
      if i != 2 {
        assert StartsWith(ALLOWED_ORIGINS[i], "http");
      }
    }
  }

  /** Neither the prefix entries nor the wildcards admit an origin that
      does not begin with `http`. */
  lemma PatternsHttp(c: string)
    requires !StartsWith(c, "http")
    ensures !StartsWith(c, LOCALHOST) && !StartsWith(c, LOOPBACK)
    ensures !UnderWildcard(c, HTTPS, NGROK_FREE) && !UnderWildcard(c, HTTPS, NGROK)
  {
    assert StartsWith(LOCALHOST, "http") && StartsWith(LOOPBACK, "http") && StartsWith(HTTPS, "http");
    if StartsWith(c, LOCALHOST) { PrefixOfPrefix(c, LOCALHOST, "http"); }
    if StartsWith(c, LOOPBACK) { PrefixOfPrefix(c, LOOPBACK, "http"); }
  }

  /** In production an origin that is not `null` and does not begin with
      `http` is refused with a 403. */
  lemma OtherSchemesRefused(origin: string)
    requires origin != "" && StripSlash(origin) != "null" && !StartsWith(StripSlash(origin), "http")
    ensures OriginCheck(Some(origin), Some(PRODUCTION)).Deny?
    ensures HandleError(OriginCheck(Some(origin), Some(PRODUCTION)).error).status == 403
  {
    var c := StripSlash(origin);
    ListedMeaning(origin);
    PlainEntriesHttp(c);
    PatternsHttp(c);
    assert origin != "null";
    OriginCheckMeaning(Some(origin), Some(PRODUCTION));
  }
}
