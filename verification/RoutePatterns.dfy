/** Route patterns and the reference matcher: what it means for a request path to match a
    pattern, by scanning one pattern without any tree. */
module RoutePatterns {
  import opened Common

  /** A captured URL parameter. */
  datatype Param = Param(key: string, value: string)

  /** The part of a pattern that stands for itself. */
  predicate Literal(s: string) {
    ':' !in s && '*' !in s
  }

  /** The length of the first path segment: up to the first '/' or the end. */
  function SegmentEnd(s: string): (e: nat)
    ensures e <= |s| && '/' !in s[..e] && (e < |s| ==> s[e] == '/')
  {
    if s == "" || s[0] == '/' then 0 else 1 + SegmentEnd(s[1..])
  }

  predicate IsCatchAll(pattern: string) {
    |pattern| >= 2 && pattern[0] == '/' && pattern[1] == '*'
  }

  /** The reference matcher. A parameter (':' and a name) needs a non-empty rest and takes its first
      segment, which may be empty; a catch-all ('/', '*' and a name) takes the whole rest, which must
      start with '/'. */
  function Match(pattern: string, path: string): Option<seq<Param>>
    decreases |pattern|
  {
    if pattern == "" then
      if path == "" then Some([]) else None
    else if pattern[0] == ':' then
      if path == "" then None
      else
        var k, e := SegmentEnd(pattern), SegmentEnd(path);
        match Match(pattern[k..], path[e..])
        case None => None
        case Some(ps) => Some([Param(pattern[1..k], path[..e])] + ps)
    else if IsCatchAll(pattern) then
      if path != "" && path[0] == '/' then Some([Param(pattern[2..], path)]) else None
    else if path != "" && path[0] == pattern[0] then Match(pattern[1..], path[1..])
    else None
  }

  lemma {:induction false} MatchEmpty(path: string)
    ensures Match("", path) == if path == "" then Some([]) else None
  {
  }

  lemma {:induction false} MatchNonEmpty(pattern: string, path: string)
    requires pattern != "" && Match(pattern, path).Some?
    ensures path != ""
  {
  }

  /** A literal prefix of a pattern is compared byte by byte. */
  lemma {:induction false} MatchLiteral(lit: string, rest: string, path: string)
    requires Literal(lit) && (rest == "" || rest[0] != '*')
    ensures Match(lit + rest, path) == if lit <= path then Match(rest, path[|lit|..]) else None
  {
    if lit == "" {
      assert lit + rest == rest && path[0..] == path;
    } else {
      assert (lit + rest)[1..] == lit[1..] + rest;
      assert lit[0] in lit && (|lit| > 1 ==> lit[1] in lit);
      assert !IsCatchAll(lit + rest);
      if path != "" && path[0] == lit[0] {
        MatchLiteral(lit[1..], rest, path[1..]);
        assert lit <= path <==> lit[1..] <= path[1..] by {
          assert lit == [lit[0]] + lit[1..] && path == [path[0]] + path[1..];
        }
        if lit <= path { assert path[1..][|lit| - 1..] == path[|lit|..]; }
      }
    }
  }

  /** A named parameter is matched by the first segment of a non-empty path. */
  lemma {:induction false} MatchParam(name: string, rest: string, path: string)
    requires '/' !in name && (rest == "" || rest[0] == '/')
    ensures Match(":" + name + rest, path) ==
      if path == "" then None
      else match Match(rest, path[SegmentEnd(path)..])
        case None => None
        case Some(ps) => Some([Param(name, path[..SegmentEnd(path)])] + ps)
  {
    var pattern := ":" + name + rest;
    SegmentEndIs(pattern, 1 + |name|);
    assert pattern[1 + |name|..] == rest && pattern[1..1 + |name|] == name;
  }

  lemma {:induction false} SegmentEndIs(s: string, e: nat)
    requires e <= |s| && '/' !in s[..e] && (e < |s| ==> s[e] == '/')
    ensures SegmentEnd(s) == e
  {
  }

  /** The number of wildcards a pattern contains, counted as `countParams` counts them. */
  function Wildcards(s: string): nat {
    if s == "" then 0 else (if s[0] == ':' || s[0] == '*' then 1 else 0) + Wildcards(s[1..])
  }

  lemma {:induction false} WildcardsConcat(a: string, b: string)
    ensures Wildcards(a + b) == Wildcards(a) + Wildcards(b)
  {
    if a == "" {
      assert a + b == b;
    } else {
      assert (a + b)[1..] == a[1..] + b;
      WildcardsConcat(a[1..], b);
    }
  }

  lemma {:induction false} LiteralHasNoWildcards(s: string)
    requires Literal(s)
    ensures Wildcards(s) == 0
  {
    if s != "" {
      assert s[0] in s;
      LiteralHasNoWildcards(s[1..]);
    }
  }
}
