/** The gateway's `RouteValidator`: a request path is secured unless it fully matches one of
    the open endpoint patterns, each turned into a regular expression by replacing `**` with
    `.*`. Regular expressions are modelled for the only forms this produces: literal text and
    `.*`, where `.` matches any character except a line terminator. */
module RouteValidator {
  const OpenApiEndpoints: seq<string> :=
    ["/user/auth/login", "/user/auth/register", "/auth/register", "/auth/token", "/eureka"]

  /** `String.replace("**", ".*")`: occurrences are replaced left to right without overlap. */
  function ReplaceDoubleStar(s: string): (r: string)
    decreases |s|
  {
    if |s| >= 2 && s[0] == '*' && s[1] == '*' then ".*" + ReplaceDoubleStar(s[2..])
    else if s == [] then []
    else [s[0]] + ReplaceDoubleStar(s[1..])
  }

  /** Java's line terminators, which `.` does not match. */
  predicate IsLineTerminator(c: char)
  {
    c == '\n' || c == '\r' || c == '\U{85}' || c == '\U{2028}' || c == '\U{2029}'
  }

  /** `s.matches(re)` for `re` made of literal characters and `.*`. */
  predicate FullMatch(re: string, s: string)
    decreases |re|, |s|
  {
    if re == [] then s == []
    else if |re| >= 2 && re[0] == '.' && re[1] == '*' then
      FullMatch(re[2..], s) || (s != [] && !IsLineTerminator(s[0]) && FullMatch(re, s[1..]))
    else s != [] && s[0] == re[0] && FullMatch(re[1..], s[1..])
  }

  /** `anyMatch` over a list of patterns. */
  predicate AnyMatch(patterns: seq<string>, path: string)
    decreases |patterns|
  {
    patterns != [] && (FullMatch(ReplaceDoubleStar(patterns[0]), path) || AnyMatch(patterns[1..], path))
  }

  predicate IsSecured(path: string)
  {
    !AnyMatch(OpenApiEndpoints, path)
  }

  /** A pattern with no `*` is left alone by the replacement. */
  lemma {:induction false} NoStarUnchanged(p: string)
    requires forall i :: 0 <= i < |p| ==> p[i] != '*'
    ensures ReplaceDoubleStar(p) == p
    decreases |p|
  {
    if p != [] {
      NoStarUnchanged(p[1..]);
    }
  }

  /** A regular expression without `.` or `*` matches exactly its own text. */
  lemma {:induction false} LiteralMatchesOnlyItself(re: string, s: string)
    requires forall i :: 0 <= i < |re| ==> re[i] != '.' && re[i] != '*'
    ensures FullMatch(re, s) <==> s == re
    decreases |re|
  {
    if re != [] {
      LiteralMatchesOnlyItself(re[1..], if s == [] then [] else s[1..]);
      if s != [] && s[0] == re[0] && s[1..] == re[1..] {
        assert s == [s[0]] + s[1..];
        assert re == [re[0]] + re[1..];
      }
    }
  }

  /** `anyMatch` finds a pattern iff some listed pattern matches. */
  lemma {:induction false} AnyMatchExists(patterns: seq<string>, path: string)
    ensures AnyMatch(patterns, path) <==>
              exists i :: 0 <= i < |patterns| && FullMatch(ReplaceDoubleStar(patterns[i]), path)
    decreases |patterns|
  {
    if patterns != [] {
      AnyMatchExists(patterns[1..], path);
      assert forall i :: 1 <= i < |patterns| ==> patterns[i] == patterns[1..][i - 1];
      if exists i :: 0 <= i < |patterns| && FullMatch(ReplaceDoubleStar(patterns[i]), path) {
        var i :| 0 <= i < |patterns| && FullMatch(ReplaceDoubleStar(patterns[i]), path);
        if i > 0 {
          assert FullMatch(ReplaceDoubleStar(patterns[1..][i - 1]), path);
        }
      }
    }
  }

  /** The result does not depend on the order (or repetition) of the open list. */
  lemma OrderIndependent(ps: seq<string>, qs: seq<string>, path: string)
    requires forall p :: p in ps <==> p in qs
    ensures AnyMatch(ps, path) <==> AnyMatch(qs, path)
  {
    AnyMatchExists(ps, path);
    AnyMatchExists(qs, path);
    if AnyMatch(ps, path) {
      var i :| 0 <= i < |ps| && FullMatch(ReplaceDoubleStar(ps[i]), path);
      assert ps[i] in qs;
    }
    if AnyMatch(qs, path) {
      var i :| 0 <= i < |qs| && FullMatch(ReplaceDoubleStar(qs[i]), path);
      assert qs[i] in ps;
    }
  }

  /** Text with no `.` and no `*`: neither the replacement nor the matcher treats any of its
      characters specially. */
  predicate Plain(p: string)
  {
    forall i :: 0 <= i < |p| ==> p[i] != '.' && p[i] != '*'
  }

  lemma {:induction false} AnyMatchOfPlain(patterns: seq<string>, path: string)
    requires forall i :: 0 <= i < |patterns| ==> Plain(patterns[i])
    ensures AnyMatch(patterns, path) <==> path in patterns
    decreases |patterns|
  {
    if patterns != [] {
      NoStarUnchanged(patterns[0]);
      LiteralMatchesOnlyItself(patterns[0], path);
      AnyMatchOfPlain(patterns[1..], path);
      assert patterns == [patterns[0]] + patterns[1..];
    }
  }

  lemma EndpointsArePlain()
    ensures forall i :: 0 <= i < |OpenApiEndpoints| ==> Plain(OpenApiEndpoints[i])
  {
    assert Plain("/user/auth/login");
    assert Plain("/user/auth/register");
    assert Plain("/auth/register");
    assert Plain("/auth/token");
    assert Plain("/eureka");
  }

  /** None of the open patterns holds `**` (or any regular-expression operator), so the only
      open paths are the five listed ones, spelled exactly. */
  lemma SecuredUnlessListed(path: string)
    ensures IsSecured(path) <==> path !in OpenApiEndpoints
  {
    EndpointsArePlain();
    AnyMatchOfPlain(OpenApiEndpoints, path);
  }

  /** Sub-paths of open endpoints are secured, and so is `/auth/login`: only
      `/user/auth/login` is open. */
  lemma SecuredExamples(path: string)
    requires path in {"/eureka/apps", "/user/auth/login/x", "/auth/login"}
    ensures IsSecured(path)
  {
    SecuredUnlessListed(path);
  }

  /** What a `**` would mean: a literal prefix followed by `**` matches the prefix followed by
      any text free of line terminators. */
  lemma {:induction false} DoubleStarMatchesAnyTail(prefix: string, tail: string)
    requires forall i :: 0 <= i < |prefix| ==> prefix[i] != '.' && prefix[i] != '*'
    requires forall i :: 0 <= i < |tail| ==> !IsLineTerminator(tail[i])
    ensures FullMatch(ReplaceDoubleStar(prefix + "**"), prefix + tail)
    decreases |prefix|
  {
    if prefix == [] {
      assert prefix + "**" == "**" && prefix + tail == tail;
      assert ReplaceDoubleStar("**") == ".*";
      StarMatchesRun(tail);
    } else {
      assert (prefix + "**")[1..] == prefix[1..] + "**";
      assert (prefix + tail)[1..] == prefix[1..] + tail;
      DoubleStarMatchesAnyTail(prefix[1..], tail);
    }
  }

  lemma {:induction false} StarMatchesRun(s: string)
    requires forall i :: 0 <= i < |s| ==> !IsLineTerminator(s[i])
    ensures FullMatch(".*", s)
    decreases |s|
  {
    assert ".*"[2..] == [];
    if s != [] {
      StarMatchesRun(s[1..]);
    }
  }
}
