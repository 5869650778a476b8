/** Which patterns can be registered together: a condition on each pattern and one on each pair, without
    any tree, and the proof that registering them returns exactly then, in whatever order. */
module RouteConflicts {
  import opened Common
  import opened RoutePatterns
  import opened RouteTree
  import opened RouteInsert
  import opened Router

  predicate IsWild(c: char) {
    c == ':' || c == '*'
  }

  /** Every wildcard has a name up to the end of its segment that contains no further one; a catch-all
      follows a '/' and ends the pattern. */
  predicate WildOk(p: string, i: nat)
    requires i < |p|
  {
    var e := SegmentEnd(p[i + 1..]);
    && e > 0 && Literal(p[i + 1..][..e])
    && (p[i] == '*' ==> i > 0 && p[i - 1] == '/' && i + 1 + e == |p|)
  }

  predicate WellFormed(p: string) {
    forall i :: 0 <= i < |p| && IsWild(p[i]) ==> WildOk(p, i)
  }

  /** `s` ends inside a wildcard. */
  predicate InWild(s: string) {
    exists k :: 0 <= k < |s| && IsWild(s[k]) && '/' !in s[k..]
  }

  /** Two patterns can both be registered: they differ, and where they part neither goes on with a wildcard
      or is inside one. A pattern may go on where another ends, but not with a catch-all, and after a
      wildcard only with '/'. */
  predicate Compatible(p: string, q: string) {
    var i := Lcp(p, q);
    if i == |p| && i == |q| then false
    else if i == |p| then q[i] != '*' && (InWild(p) ==> q[i] == '/')
    else if i == |q| then p[i] != '*' && (InWild(q) ==> p[i] == '/')
    else !IsWild(p[i]) && !IsWild(q[i]) && !InWild(p[..i])
  }

  // ---------------------------------------------------------------- strings

  lemma {:induction false} LcpIs(a: string, b: string, i: nat)
    requires i <= |a| && i <= |b| && a[..i] == b[..i] && (i < |a| && i < |b| ==> a[i] != b[i])
    ensures Lcp(a, b) == i
  {
    var j := Lcp(a, b);
    forall k | 0 <= k < i ensures a[k] == b[k] { assert a[..i][k] == b[..i][k]; }
    forall k | 0 <= k < j ensures a[k] == b[k] { assert a[..j][k] == b[..j][k]; }
  }

  lemma {:induction false} LcpCancel(x: string, a: string, b: string)
    ensures Lcp(x + a, x + b) == |x| + Lcp(a, b)
  {
    var i := Lcp(a, b);
    assert (x + a)[..|x| + i] == x + a[..i] && (x + b)[..|x| + i] == x + b[..i];
    LcpIs(x + a, x + b, |x| + i);
  }

  lemma {:induction false} Symmetric(p: string, q: string)
    ensures Compatible(p, q) <==> Compatible(q, p)
  {
    LcpIs(q, p, Lcp(p, q));
  }

  lemma {:induction false} InWildSlash(x: string, s: string)
    requires '/' in s
    ensures InWild(x + s) <==> InWild(s)
  {
    var t := x + s;
    if InWild(s) {
      var k :| 0 <= k < |s| && IsWild(s[k]) && '/' !in s[k..];
      assert t[|x| + k] == s[k] && t[|x| + k..] == s[k..];
    }
    var j :| 0 <= j < |s| && s[j] == '/';
    forall k | 0 <= k <= |x| + j ensures '/' in t[k..] { assert t[k..][|x| + j - k] == '/'; }
    if InWild(t) {
      var k :| 0 <= k < |t| && IsWild(t[k]) && '/' !in t[k..];
      assert s[k - |x|] == t[k] && s[k - |x|..] == t[k..];
    }
  }

  lemma {:induction false} InWildLiteral(x: string, s: string)
    requires Literal(x)
    ensures InWild(x + s) <==> InWild(s)
    ensures !InWild(x)
  {
    var t := x + s;
    assert forall k :: 0 <= k < |x| ==> t[k] == x[k] && x[k] in x;
    if InWild(s) {
      var k :| 0 <= k < |s| && IsWild(s[k]) && '/' !in s[k..];
      assert t[|x| + k] == s[k] && t[|x| + k..] == s[k..];
    }
    if InWild(t) {
      var k :| 0 <= k < |t| && IsWild(t[k]) && '/' !in t[k..];
      assert s[k - |x|] == t[k] && s[k - |x|..] == t[k..];
    }
  }

  lemma {:induction false} InWildStart(x: string, s: string)
    requires s != "" && IsWild(s[0]) && '/' !in s
    ensures InWild(x + s)
  {
    var t := x + s;
    assert t[|x|] == s[0] && t[|x|..] == s;
  }

  /** What two patterns have in common, up to the end of a segment or of a literal part, does not matter. */
  lemma {:induction false} Cancel(x: string, a: string, b: string)
    requires Literal(x) || ((a == "" || a[0] == '/') && (b == "" || b[0] == '/'))
    ensures Compatible(x + a, x + b) <==> Compatible(a, b)
  {
    LcpCancel(x, a, b);
    var i := Lcp(a, b);
    assert (x + a)[..|x| + i] == x + a[..i];
    if Literal(x) {
      InWildLiteral(x, a[..i]);
      InWildLiteral(x, a);
      InWildLiteral(x, b);
    } else {
      if i > 0 { assert a[..i][0] == '/'; InWildSlash(x, a[..i]); }
      if a != "" { InWildSlash(x, a); }
      if b != "" { InWildSlash(x, b); }
    }
  }

  // ---------------------------------------------------------------- one pattern

  /** What `insertChild` checks, wildcard by wildcard. */
  predicate Accepted(p: string)
    decreases |p|
  {
    match FindWildcard(p)
    case NoWildcard => true
    case Wildcard(w, i, valid) =>
      && valid && |w| >= 2
      && if w[0] == ':' then Accepted(p[i + |w|..])
         else i + |w| == |p| && i > 0 && p[i - 1] == '/'
  }

  lemma {:induction false} WildOkShift(x: string, s: string, i: nat)
    requires i < |s| && (s[i] == '*' && i == 0 ==> x == "")
    ensures WildOk(x + s, |x| + i) <==> WildOk(s, i)
  {
    assert (x + s)[|x| + i + 1..] == s[i + 1..];
  }

  /** A literal part in front, or a wildcard that ends with its segment, does not matter for the rest. */
  lemma {:induction false} WellFormedSplit(x: string, s: string)
    requires s == "" || s[0] != '*'
    ensures WellFormed(x + s) <==> WellFormed(s) && forall i :: 0 <= i < |x| && IsWild(x[i]) ==> WildOk(x + s, i)
  {
    var t := x + s;
    assert forall i :: 0 <= i < |x| ==> t[i] == x[i];
    forall i | 0 <= i < |s| && IsWild(s[i]) ensures t[|x| + i] == s[i] && (WildOk(t, |x| + i) <==> WildOk(s, i)) {
      WildOkShift(x, s, i);
    }
    forall i | |x| <= i < |t| && IsWild(t[i]) ensures s[i - |x|] == t[i] && (WildOk(t, i) <==> WildOk(s, i - |x|)) {
      WildOkShift(x, s, i - |x|);
    }
  }

  lemma {:induction false} LiteralWellFormed(x: string, s: string)
    requires Literal(x) && (s == "" || s[0] != '*')
    ensures WellFormed(x + s) <==> WellFormed(s)
  {
    WellFormedSplit(x, s);
    assert forall i :: 0 <= i < |x| ==> x[i] in x;
  }

  lemma {:induction false} ParamWellFormed(w: string, s: string)
    requires |w| >= 1 && w[0] == ':' && '/' !in w && (s == "" || s[0] == '/')
    ensures WellFormed(w + s) <==> WellFormed(s) && |w| >= 2 && Literal(w[1..])
  {
    WellFormedSplit(w, s);
    var t := w + s;
    SegmentEndIs(t[1..], |w| - 1);
    assert t[1..][..|w| - 1] == w[1..];
    if |w| >= 2 && Literal(w[1..]) {
      forall i | 0 < i < |w| ensures !IsWild(w[i]) { assert w[i] == w[1..][i - 1] && w[1..][i - 1] in w[1..]; }
    }
  }

  lemma {:induction false} CatchAllWellFormed(x: string, w: string)
    requires Literal(x) && |w| >= 1 && w[0] == '*'
    ensures WellFormed(x + w) <==> |w| >= 2 && Literal(w[1..]) && '/' !in w && x != "" && x[|x| - 1] == '/'
  {
    var t, n := x + w, |x|;
    assert t[n] == '*' && t[n + 1..] == w[1..] && (n > 0 ==> t[n - 1] == x[n - 1]);
    forall i | 0 <= i < n ensures !IsWild(t[i]) { assert t[i] == x[i] && x[i] in x; }
    forall i | n < i < |t| ensures t[i] in w[1..] { assert t[i] == w[1..][i - n - 1]; }
    assert forall k :: 1 <= k < |w| ==> w[k] == w[1..][k - 1];
    var e := SegmentEnd(w[1..]);
    if e == |w| - 1 { assert w[1..][..e] == w[1..]; }
    if '/' !in w { SegmentEndIs(w[1..], |w| - 1); }
    if WellFormed(t) { assert WildOk(t, n); }
  }

  lemma {:induction false} AcceptedNext(p: string)
    requires FindWildcard(p).Wildcard?
    ensures
      var Wildcard(w, i, valid) := FindWildcard(p);
      && i + |w| <= |p| && |w| >= 1 && IsWild(w[0]) && '/' !in w && Literal(p[..i]) && p[i..i + |w|] == w
      && (i + |w| < |p| ==> p[i + |w|] == '/') && (valid <==> Literal(w[1..]))
      && (Accepted(p) <==>
            && valid && |w| >= 2
            && if w[0] == ':' then Accepted(p[i + |w|..]) else i + |w| == |p| && i > 0 && p[i - 1] == '/')
  {
    WildcardText(p);
  }

  lemma {:induction false} AcceptedPlain(p: string)
    requires FindWildcard(p).NoWildcard?
    ensures Accepted(p) && WellFormed(p)
  {
    LiteralWellFormed(p, "");
    assert p + "" == p && p[..|p|] == p;
  }

  lemma {:induction false} CatchAllText(w: string, s: string)
    requires |w| >= 1 && '/' !in w && (s != "" ==> s[0] == '/')
    ensures '/' !in w + s <==> s == ""
    ensures s == "" ==> (w + s)[1..] == w[1..]
  {
    if s != "" { assert (w + s)[|w|] == '/'; }
  }

  lemma {:induction false} AcceptedIs(p: string)
    ensures Accepted(p) <==> WellFormed(p)
    decreases |p|
  {
    hide Accepted, WellFormed, FindWildcard, Literal;
    if FindWildcard(p).NoWildcard? {
      AcceptedPlain(p);
    } else {
      AcceptedNext(p);
      var Wildcard(w, i, valid) := FindWildcard(p);
      var x, s := p[..i], p[i + |w|..];
      assert p == x + (w + s);
      if w[0] == ':' {
        LiteralWellFormed(x, w + s);
        ParamWellFormed(w, s);
        AcceptedIs(s);
      } else {
        CatchAllWellFormed(x, w + s);
        CatchAllText(w, s);
        assert s == "" <==> i + |w| == |p|;
        assert i > 0 ==> p[i - 1] == x[i - 1];
      }
    }
  }

  lemma {:induction false} ParamChildIff(w: string, path: string, full: string, h: HandlersChain)
    requires w != "" && w <= path
    ensures ParamChild(w, path, full, h).Ok? <==> Accepted(path[|w|..])
    decreases |path|, 0
  {
    hide InsertChild;
    if |w| < |path| {
      InsertIff(NewNode(full, 1), path[|w|..], full, h);
    } else {
      AcceptedPlain("");
      assert path[|w|..] == "";
    }
  }

  /** A new branch is refused exactly if its pattern is not well formed. */
  lemma {:induction false} InsertIff(n: Node, path: string, full: string, h: HandlersChain)
    requires n.path == "" && n.children == []
    ensures InsertChild(n, path, full, h).Ok? <==> Accepted(path)
    decreases |path|, 1
  {
    hide ParamChild, FindWildcard;
    if FindWildcard(path).Wildcard? {
      AcceptedNext(path);
      var Wildcard(w, i, valid) := FindWildcard(path);
      if valid && |w| >= 2 && w[0] == ':' {
        ParamChildIff(w, path[i..], full, h);
        assert path[i..][|w|..] == path[i + |w|..];
      }
    }
  }

  /** A wildcard right under a node needs one without children, and must not be a catch-all. */
  lemma {:induction false} InsertWildIff(n: Node, path: string, full: string, h: HandlersChain)
    requires path != "" && IsWild(path[0])
    ensures InsertChild(n, path, full, h).Ok? <==> n.children == [] && path[0] == ':' && Accepted(path)
  {
    hide ParamChild, Accepted;
    AcceptedNext(path);
    var Wildcard(w, i, valid) := FindWildcard(path);
    assert i == 0 && w[0] == path[0] && path[0..] == path;
    if valid && |w| >= 2 && w[0] == ':' {
      ParamChildIff(w, path, full, h);
    }
  }

  // ---------------------------------------------------------------- one tree

  /** The path can join the routes of `n`. */
  ghost predicate Fits(n: Node, path: string) {
    WellFormed(path) && forall r :: r in Routes(n) ==> Compatible(r.pattern, path)
  }

  lemma {:induction false} Diverge(p: string, q: string, i: nat)
    requires i < |p| && i < |q| && p[..i] == q[..i] && p[i] != q[i]
    ensures Compatible(p, q) <==> !IsWild(p[i]) && !IsWild(q[i]) && !InWild(p[..i])
  {
    LcpIs(p, q, i);
  }

  lemma {:induction false} Ends(p: string, q: string)
    requires p < q
    ensures Compatible(p, q) <==> q[|p|] != '*' && (InWild(p) ==> q[|p|] == '/')
    ensures Compatible(q, p) <==> Compatible(p, q)
  {
    LcpIs(p, q, |p|);
    Symmetric(p, q);
  }

  lemma {:induction false} Same(p: string)
    ensures !Compatible(p, p)
  {
    LcpIs(p, p, |p|);
  }

  /** A node has a route. */
  lemma {:induction false} HasRoute(n: Node) returns (r: Route)
    requires Counted(n)
    ensures r in Routes(n)
  {
    r := Routes(n)[0];
  }

  /** The path leaves the edge to `n` before its end. */
  lemma {:induction false} SplitFits(n: Node, path: string, i: nat)
    requires StaticOk(n) && i == Lcp(path, n.path) < |n.path|
    ensures i < |path| && IsWild(path[i]) ==> !Fits(n, path)
    ensures i < |path| && !IsWild(path[i]) ==> (Fits(n, path) <==> WellFormed(path[i..]))
    ensures i == |path| ==> Fits(n, path)
  {
    hide StaticOk, WellFormed, Compatible, Routes, Counted, Below, Literal;
    StaticFacts(n);
    LiteralParts(n.path, i);
    assert path[..i] == n.path[..i];
    InWildLiteral(path[..i], "");
    forall r | r in Routes(n)
      ensures i < |path| ==> (Compatible(r.pattern, path) <==> !IsWild(path[i]))
      ensures i == |path| ==> Compatible(r.pattern, path)
    {
      RouteFrom(n, r);
      assert r.pattern[..i] == n.path[..i] && r.pattern[i] == n.path[i];
      if i < |path| { Diverge(r.pattern, path, i); } else { assert path == path[..i]; Ends(path, r.pattern); }
    }
    var r := HasRoute(n);
    if i < |path| {
      assert path == path[..i] + path[i..];
      if !IsWild(path[i]) { LiteralWellFormed(path[..i], path[i..]); }
    } else {
      LiteralWellFormed(path[..i], "");
      assert path[..i] + "" == path;
      EmptyWellFormed();
    }
  }

  lemma {:induction false} EmptyWellFormed()
    ensures WellFormed("")
  {
  }

  lemma {:induction false} LiteralParts(s: string, i: nat)
    requires Literal(s) && i <= |s|
    ensures Literal(s[..i]) && Literal(s[i..]) && (i < |s| ==> !IsWild(s[i]))
  {
    assert i < |s| ==> s[i] in s;
  }

  lemma {:induction false} StaticFacts(n: Node)
    requires StaticOk(n)
    ensures Literal(n.path) && Counted(n)
    ensures n.wildChild ==> n.indices == "" && |n.children| == 1 && ParamOk(n.children[0])
    ensures !n.wildChild ==> ChildrenOk(n.children, n.indices)
    ensures n.path == "" ==> n.handlers == [] && !n.wildChild && |n.children| == 1 && CatchAllOk(n.children[0])
  {
    hide Counted;
    StaticShape(n);
  }

  /** Routes of a node begin with its path. */
  lemma {:induction false} RouteFrom(n: Node, r: Route)
    requires r in Routes(n)
    ensures n.path <= r.pattern
  {
    PrefixedMember(n.path, Below(n), r);
  }

  ghost predicate ChildFits(c: Node, rest: string) {
    forall q :: q in Routes(c) ==> Compatible(q.pattern, rest)
  }

  ghost predicate ChildrenFit(n: Node, rest: string) {
    forall i :: 0 <= i < |n.children| ==> ChildFits(n.children[i], rest)
  }

  /** Both continuations of `x` may be looked at without it. */
  predicate Separable(x: string, a: string, b: string) {
    Literal(x) || ((a == "" || a[0] == '/') && (b == "" || b[0] == '/'))
  }

  lemma {:induction false} RouteOrigin(n: Node, r: Route) returns (i: nat)
    requires r in Routes(n)
    ensures n.path <= r.pattern && i <= |n.children|
    ensures i == |n.children| ==> n.handlers != [] && r.pattern == n.path
    ensures i < |n.children| ==> r.(pattern := r.pattern[|n.path|..]) in Routes(n.children[i])
  {
    PrefixedMember(n.path, Below(n), r);
    var q := r.(pattern := r.pattern[|n.path|..]);
    if q in Own(n) {
      i := |n.children|;
      assert r.pattern == n.path + q.pattern;
    } else {
      RoutesOfAllMember(n.children, q);
      i :| 0 <= i < |n.children| && q in Routes(n.children[i]);
    }
  }

  /** A path through `n` fits the routes of `n` exactly if it fits its own one and its rest fits the children. */
  lemma {:induction false} RoutesFit(n: Node, rest: string)
    requires forall i, q :: 0 <= i < |n.children| && q in Routes(n.children[i]) ==> Separable(n.path, q.pattern, rest)
    ensures ChildFits(n, n.path + rest) <==>
      (n.handlers != [] ==> Compatible(n.path, n.path + rest)) && ChildrenFit(n, rest)
  {
    hide Compatible, Routes;
    var path := n.path + rest;
    if ChildFits(n, path) {
      if n.handlers != [] { OwnRoute(n); }
      forall i, q | 0 <= i < |n.children| && q in Routes(n.children[i]) ensures Compatible(q.pattern, rest) {
        ChildRoute(n, i, q);
        Cancel(n.path, q.pattern, rest);
      }
    }
    if (n.handlers != [] ==> Compatible(n.path, path)) && ChildrenFit(n, rest) {
      forall r | r in Routes(n) ensures Compatible(r.pattern, path) {
        var i := RouteOrigin(n, r);
        if i < |n.children| {
          var q := r.(pattern := r.pattern[|n.path|..]);
          assert ChildFits(n.children[i], rest);
          assert r.pattern == n.path + q.pattern;
          Cancel(n.path, q.pattern, rest);
        }
      }
    }
  }

  lemma {:induction false} FitsIs(n: Node, path: string)
    ensures Fits(n, path) <==> WellFormed(path) && ChildFits(n, path)
  {
  }

  /** Below a static node, for a rest that does not start a catch-all. */
  lemma {:induction false} StaticFits(n: Node, rest: string)
    requires StaticOk(n) && rest != "" && rest[0] != '*'
    ensures Fits(n, n.path + rest) <==> WellFormed(rest) && ChildrenFit(n, rest)
  {
    hide StaticOk, WellFormed, Compatible, Routes, Counted, ChildrenFit, ChildFits, Fits, Literal, ChildrenOk;
    StaticFacts(n);
    FitsIs(n, n.path + rest);
    LiteralWellFormed(n.path, rest);
    RoutesFit(n, rest);
    InWildLiteral(n.path, "");
    Ends(n.path, n.path + rest);
  }

  /** Below a parameter, for a rest that starts with '/'. */
  lemma {:induction false} ParamFits(n: Node, rest: string)
    requires ParamOk(n) && rest != "" && rest[0] == '/'
    ensures Fits(n, n.path + rest) <==> WellFormed(rest) && ChildrenFit(n, rest)
  {
    hide WellFormed, Compatible, Routes, Counted, ChildrenFit, ChildFits, Fits, StaticOk;
    FitsIs(n, n.path + rest);
    ParamWellFormed(n.path, rest);
    forall i, q | 0 <= i < |n.children| && q in Routes(n.children[i]) ensures Separable(n.path, q.pattern, rest) {
      assert ChildOk(n.children[i], '/');
      RoutesStart(n.children[i], '/', q);
    }
    RoutesFit(n, rest);
    Ends(n.path, n.path + rest);
  }

  /** How the routes below a node's children begin. */
  lemma {:induction false} ChildRouteStarts(n: Node, i: nat, q: Route)
    requires StaticOk(n) && i < |n.children| && q in Routes(n.children[i])
    ensures q.pattern != "" && q.pattern[0] != '*'
    ensures n.wildChild ==> q.pattern[0] == ':'
    ensures !n.wildChild ==> i < |n.indices| && q.pattern[0] == n.indices[i] && !IsWild(q.pattern[0])
  {
    hide Counted, Routes, Sorted, DistinctChars;
    if n.wildChild {
      var own := ParamRoute(n.children[i], q);
      assert n.children[0].path <= q.pattern;
    } else {
      assert ChildOk(n.children[i], n.indices[i]);
      RoutesStart(n.children[i], n.indices[i], q);
      IndexLiteral(n, i);
    }
  }

  /** A path that ends at a static node. */
  lemma {:induction false} StaticEndFits(n: Node)
    requires StaticOk(n)
    ensures Fits(n, n.path) <==> n.handlers == []
  {
    hide StaticOk, WellFormed, Compatible, Routes, Counted, Literal, ChildrenOk;
    StaticFacts(n);
    LiteralWellFormed(n.path, "");
    assert n.path + "" == n.path;
    EmptyWellFormed();
    InWildLiteral(n.path, "");
    if n.handlers != [] {
      OwnRoute(n);
      Same(n.path);
    } else {
      forall r | r in Routes(n) ensures Compatible(r.pattern, n.path) {
        var i := RouteOrigin(n, r);
        var q := r.(pattern := r.pattern[|n.path|..]);
        ChildRouteStarts(n, i, q);
        assert r.pattern[|n.path|] == q.pattern[0];
        Ends(n.path, r.pattern);
      }
    }
  }

  lemma {:induction false} ParamEndFits(n: Node)
    requires ParamOk(n)
    ensures Fits(n, n.path) <==> n.handlers == []
  {
    hide WellFormed, Compatible, Routes, Counted, StaticOk;
    ParamWellFormed(n.path, "");
    assert n.path + "" == n.path;
    EmptyWellFormed();
    if n.handlers != [] {
      OwnRoute(n);
      Same(n.path);
    } else {
      forall r | r in Routes(n) ensures Compatible(r.pattern, n.path) {
        var own := ParamRoute(n, r);
        assert r.pattern[|n.path|] == r.pattern[|n.path|..][0];
        Ends(n.path, r.pattern);
      }
    }
  }

  /** A child of a static node has a route. */
  lemma {:induction false} ChildHasRoute(n: Node, i: nat) returns (q: Route)
    requires StaticOk(n) && i < |n.children|
    ensures q in Routes(n.children[i])
  {
    var c := n.children[i];
    if n.wildChild {
      q := HasRoute(c);
    } else {
      assert ChildOk(c, n.indices[i]);
      if CatchAllOk(c) {
        CatchAllRoutes(c);
        q := Routes(c)[0];
      } else {
        StaticFacts(c);
        q := HasRoute(c);
      }
    }
  }

  lemma {:induction false} NotEmpty(n: Node)
    requires StaticOk(n)
    ensures n.handlers != [] || n.children != []
  {
    var r := HasRoute(n);
    var i := RouteOrigin(n, r);
  }

  /** A catch-all cannot start at a node. */
  lemma {:induction false} StarFits(n: Node, rest: string)
    requires StaticOk(n) && rest != "" && rest[0] == '*'
    ensures !Fits(n, n.path + rest)
  {
    hide StaticOk, WellFormed, Compatible, Routes, Counted, Literal, ChildrenOk;
    StaticFacts(n);
    NotEmpty(n);
    var path := n.path + rest;
    if n.handlers != [] {
      OwnRoute(n);
      Ends(n.path, path);
    } else {
      var q := ChildHasRoute(n, 0);
      ChildRouteStarts(n, 0, q);
      ChildRoute(n, 0, q);
      Diverge(q.pattern, rest, 0);
      Cancel(n.path, q.pattern, rest);
    }
  }

  /** Nothing goes where a catch-all is. */
  lemma {:induction false} CatchAllFits(n: Node, path: string)
    requires CatchAllOk(n) && path != "" && path[0] == '/'
    ensures !Fits(n, path)
  {
    hide WellFormed, Compatible;
    CatchAllRoutes(n);
    var q := n.children[0].path;
    assert Routes(n)[0].pattern == q && q[0] == '/' && q[1] == '*';
    CatchAllRefuses(q, path);
  }

  lemma {:induction false} CatchAllRefuses(q: string, path: string)
    requires |q| >= 3 && q[..2] == "/*" && '/' !in q[2..] && path != "" && path[0] == '/'
    ensures !(WellFormed(path) && Compatible(q, path))
  {
    var i := Lcp(q, path);
    assert q[0] == '/' && q[1] == '*' && q == "/*" + q[2..];
    assert i >= 1;
    if i >= 2 {
      assert q[..i] == "/" + q[1..i];
      forall k | 1 <= k < |q| ensures q[k] != '/' { assert k >= 2 ==> q[k] == q[2..][k - 2]; }
      InWildStart("/", q[1..i]);
      if i == |q| < |path| && path[i] == '/' {
        assert path[1] == path[..i][1] == '*';
        assert path == path[..1] + path[1..];
        CatchAllWellFormed(path[..1], path[1..]);
        assert path[1..][i - 1] == '/';
      }
    }
  }

  /** A parameter is joined only under the same name. */
  lemma {:induction false} MismatchFits(c: Node, rest: string)
    requires ParamOk(c) && rest != "" && !Continues(c, rest)
    ensures !ChildFits(c, rest)
  {
    hide Compatible, Routes, Counted, StaticOk;
    var q := ParamHasRoute(c);
    var own := ParamRoute(c, q);
    assert own || q.pattern[|c.path|] == q.pattern[|c.path|..][0];
    Mismatch(c.path, q.pattern, rest);
  }

  lemma {:induction false} ParamHasRoute(c: Node) returns (q: Route)
    requires ParamOk(c)
    ensures q in Routes(c)
  {
    q := HasRoute(c);
  }

  lemma {:induction false} Mismatch(w: string, q: string, rest: string)
    requires |w| >= 1 && w[0] == ':' && '/' !in w && w <= q && (|w| < |q| ==> q[|w|] == '/') && rest != ""
    requires !(w <= rest && (|w| == |rest| || rest[|w|] == '/'))
    ensures !Compatible(q, rest)
  {
    var i := Lcp(q, rest);
    var k := if i > |w| then |w| else i;
    forall j | 0 <= j < i ensures q[j] == rest[j] { assert q[..i][j] == rest[..i][j]; }
    assert q[..k] == w[..k] == rest[..k];
    assert k == |w| ==> w <= rest;
    if k == 0 {
      Diverge(q, rest, 0);
    } else {
      InWildStart("", w[..k]);
      assert "" + w[..k] == w[..k];
      assert k < |w| ==> q[k] == w[k] && w[k] in w;
      assert k == |rest| ==> rest == w[..k];
    }
  }

  lemma {:induction false} ByteFits(n: Node, rest: string, k: nat)
    requires StaticOk(n) && !n.wildChild && rest != "" && k < |n.children| == |n.indices| && n.indices[k] == rest[0]
    ensures ChildrenFit(n, rest) <==> ChildFits(n.children[k], rest)
    ensures !IsWild(rest[0])
  {
    hide Compatible, Routes, Counted, Sorted;
    IndexLiteral(n, k);
    forall i | 0 <= i < |n.children| && i != k ensures ChildFits(n.children[i], rest) {
      forall q | q in Routes(n.children[i]) ensures Compatible(q.pattern, rest) {
        OtherByte(n, rest, i, q);
      }
    }
  }

  lemma {:induction false} OtherByte(n: Node, rest: string, i: nat, q: Route)
    requires StaticOk(n) && !n.wildChild && rest != "" && i < |n.children| == |n.indices| && n.indices[i] != rest[0]
    requires q in Routes(n.children[i])
    ensures Compatible(q.pattern, rest) <==> !IsWild(rest[0])
  {
    hide Compatible, Routes, StaticOk;
    ChildRouteStarts(n, i, q);
    Diverge(q.pattern, rest, 0);
    InWildLiteral("", "");
  }

  lemma {:induction false} NoByteFits(n: Node, rest: string)
    requires StaticOk(n) && !n.wildChild && rest != "" && |n.children| == |n.indices| && rest[0] !in n.indices
    ensures ChildrenFit(n, rest) <==> n.children == [] || !IsWild(rest[0])
  {
    hide Compatible, Routes, StaticOk;
    forall i, q | 0 <= i < |n.children| && q in Routes(n.children[i])
      ensures Compatible(q.pattern, rest) <==> !IsWild(rest[0])
    {
      OtherByte(n, rest, i, q);
    }
    if n.children != [] {
      var q := ChildHasRoute(n, 0);
      assert ChildrenFit(n, rest) ==> ChildFits(n.children[0], rest);
    }
  }

  // ---------------------------------------------------------------- one more registration

  lemma {:induction false} AttachIff(n: Node, path: string, full: string, h: HandlersChain)
    requires path != "" && |n.children| == |n.indices|
    ensures Attach(n, path, full, h).Ok? <==>
      WellFormed(path) && (IsWild(path[0]) ==> n.children == [] && path[0] == ':')
  {
    hide InsertChild, WellFormed, Accepted;
    AcceptedIs(path);
    if IsWild(path[0]) {
      InsertWildIff(n, path, full, h);
    } else {
      InsertIff(NewNode(full, 1), path, full, h);
    }
  }

  /** The walk down from a node returns exactly if the path fits the routes there. */
  lemma {:induction false} WalkIff(n: Node, path: string, full: string, done: nat, h: HandlersChain)
    requires NodeOk(n) && path != "" && done + |path| <= |full|
    requires (ParamOk(n) ==> Continues(n, path)) && (CatchAllOk(n) ==> path[0] == '/')
    ensures Walk(n, path, full, done, h).Ok? <==> Fits(n, path)
    decreases n, 1
  {
    hide Fits, Follow, Attach, ParamOk, CatchAllOk, StaticOk;
    var i := Lcp(path, n.path);
    if StaticOk(n) && i < |n.path| {
      SplitFits(n, path, i);
      if i < |path| { AttachIff(Split(Bump(n), i, full[..done + i]), path[i..], full, h); }
    } else {
      WalkThrough(n, path);
      if i == |path| {
        assert path == n.path;
        EndFits(n);
      } else {
        FollowIff(n, path, full, done, h);
      }
    }
  }

  /** Only the edge to a static node can be left before its end. */
  lemma {:induction false} WalkThrough(n: Node, path: string)
    requires NodeOk(n) && (ParamOk(n) ==> Continues(n, path)) && path != ""
    requires StaticOk(n) ==> Lcp(path, n.path) == |n.path|
    ensures Lcp(path, n.path) == |n.path| && n.path <= path
    ensures Lcp(path, n.path) == |path| ==> path == n.path && !CatchAllOk(n)
  {
    hide StaticOk, Counted;
    if ParamOk(n) { LcpIs(path, n.path, |n.path|); }
    var i := Lcp(path, n.path);
    assert path[..i] == n.path[..i];
  }

  lemma {:induction false} EndFits(n: Node)
    requires StaticOk(n) || ParamOk(n)
    ensures Fits(n, n.path) <==> n.handlers == []
  {
    hide StaticOk, ParamOk, Fits;
    if StaticOk(n) { StaticEndFits(n); } else { ParamEndFits(n); }
  }

  lemma {:induction false} FollowIff(n: Node, path: string, full: string, done: nat, h: HandlersChain)
    requires NodeOk(n) && n.path < path && done + |path| <= |full|
    requires (ParamOk(n) ==> Continues(n, path)) && (CatchAllOk(n) ==> path[0] == '/')
    ensures Follow(n, path, full, done, h).Ok? <==> Fits(n, path)
    decreases n, 0
  {
    hide Fits, Walk, Attach, StaticOk, ParamOk, Counted;
    if CatchAllOk(n) {
      CatchAllFits(n, path);
    } else if ParamOk(n) {
      FollowParamIff(n, path, full, done, h);
    } else if n.wildChild {
      FollowWildIff(n, path, full, done, h);
    } else {
      FollowByteIff(n, path, full, done, h);
    }
  }

  lemma {:induction false} FollowParamIff(n: Node, path: string, full: string, done: nat, h: HandlersChain)
    requires ParamOk(n) && n.path < path && done + |path| <= |full| && Continues(n, path)
    ensures Follow(n, path, full, done, h).Ok? <==> Fits(n, path)
    decreases n, 0, 0
  {
    hide Fits, Walk, Attach, StaticOk, Counted, WellFormed, ChildrenFit, ChildFits;
    var rest := path[|n.path|..];
    assert path == n.path + rest;
    ParamFits(n, rest);
    if |n.children| == 1 {
      WalkIff(n.children[0], rest, full, done + |n.path|, h);
      FitsIs(n.children[0], rest);
      OneChildFits(n, rest);
    } else {
      AttachIff(Bump(n), rest, full, h);
      OneChildFits(n, rest);
    }
  }

  lemma {:induction false} OneChildFits(n: Node, rest: string)
    requires |n.children| <= 1
    ensures n.children == [] ==> ChildrenFit(n, rest)
    ensures |n.children| == 1 ==> (ChildrenFit(n, rest) <==> ChildFits(n.children[0], rest))
  {
  }

  lemma {:induction false} FollowWildIff(n: Node, path: string, full: string, done: nat, h: HandlersChain)
    requires StaticOk(n) && n.wildChild && n.path < path && done + |path| <= |full|
    ensures Follow(n, path, full, done, h).Ok? <==> Fits(n, path)
    decreases n, 0, 0
  {
    hide Fits, Walk, Attach, StaticOk, ParamOk, Counted, WellFormed, ChildrenFit, ChildFits, Literal;
    StaticFacts(n);
    var c, rest := n.children[0], path[|n.path|..];
    assert path == n.path + rest;
    OneChildFits(n, rest);
    ParamHead(c);
    if rest[0] == '*' {
      StarFits(n, rest);
    } else {
      StaticFits(n, rest);
      if Continues(c, rest) {
        WalkIff(c, rest, full, done + |n.path|, h);
        FitsIs(c, rest);
      } else {
        MismatchFits(c, rest);
      }
    }
  }

  lemma {:induction false} ParamHead(c: Node)
    requires ParamOk(c)
    ensures c.path != "" && c.path[0] == ':' && c.nType == ParamNode && !CatchAllOk(c)
  {
  }

  lemma {:induction false} ChildKind(c: Node, b: char)
    requires ChildOk(c, b)
    ensures NodeOk(c) && !ParamOk(c) && (CatchAllOk(c) ==> b == '/')
  {
    hide Counted;
  }

  lemma {:induction false} FollowByteIff(n: Node, path: string, full: string, done: nat, h: HandlersChain)
    requires StaticOk(n) && !n.wildChild && n.path < path && done + |path| <= |full|
    ensures Follow(n, path, full, done, h).Ok? <==> Fits(n, path)
    decreases n, 0, 0
  {
    hide Fits, Walk, Attach, ParamOk, Counted, WellFormed, ChildrenFit, ChildFits, Literal, CatchAllOk, Sorted;
    var rest := path[|n.path|..];
    assert path == n.path + rest;
    var k := IndexOf(n.indices, rest[0]);
    if rest[0] == '*' { StarFits(n, rest); } else { StaticFits(n, rest); }
    if k < |n.indices| {
      ByteFits(n, rest, k);
      assert ChildOk(n.children[k], n.indices[k]);
      ChildKind(n.children[k], n.indices[k]);
      WalkIff(n.children[k], rest, full, done + |n.path|, h);
      FitsIs(n.children[k], rest);
    } else {
      assert rest[0] !in n.indices by { assert n.indices[..k] == n.indices; }
      NoByteFits(n, rest);
      AttachIff(Bump(n), rest, full, h);
    }
  }

  // ---------------------------------------------------------------- whole runs of registrations

  /** What a registration must be like on its own. */
  predicate Admissible(reg: Registration) {
    reg.handlers != [] && reg.pattern != "" && reg.pattern[0] == '/' && WellFormed(reg.pattern)
  }

  /** Every registration is admissible and every two are compatible. */
  predicate Consistent(regs: seq<Registration>) {
    && (forall i :: 0 <= i < |regs| ==> Admissible(regs[i]))
    && forall i, j :: 0 <= i < j < |regs| ==> Compatible(regs[i].pattern, regs[j].pattern)
  }

  lemma {:induction false} FirstIff(reg: Registration)
    ensures AddRoute(NEW_ROOT, reg).Ok? <==> Admissible(reg)
  {
    hide InsertChild, WellFormed, Accepted;
    AcceptedIs(reg.pattern);
    InsertIff(Bump(NEW_ROOT), reg.pattern, reg.pattern, reg.handlers);
  }

  /** One more registration returns exactly if it is admissible and compatible with all the others. */
  lemma {:induction false} AddRouteIff(root: Node, regs: seq<Registration>, reg: Registration)
    requires Built(root, regs)
    ensures root == NEW_ROOT || StaticOk(root)
    ensures AddRoute(root, reg).Ok? <==>
      Admissible(reg) && forall i :: 0 <= i < |regs| ==> Compatible(regs[i].pattern, reg.pattern)
  {
    if regs == [] {
      FirstIff(reg);
    } else {
      hide Walk, WellFormed, Compatible, StaticOk, Routes;
      RootFacts(root);
      if reg.handlers != [] && reg.pattern != "" && reg.pattern[0] == '/' {
        WalkIff(root, reg.pattern, reg.pattern, 0, reg.handlers);
        BuiltFits(root, regs, reg.pattern);
      }
    }
  }

  lemma {:induction false} RootFacts(root: Node)
    requires StaticOk(root)
    ensures !ParamOk(root) && !CatchAllOk(root) && !(root.path == "" && root.children == [])
  {
    hide Counted;
  }

  lemma {:induction false} BuiltFits(root: Node, regs: seq<Registration>, path: string)
    requires Built(root, regs) && regs != []
    ensures Fits(root, path) <==>
      WellFormed(path) && forall i :: 0 <= i < |regs| ==> Compatible(regs[i].pattern, path)
  {
    hide WellFormed, Compatible, StaticOk, Routes;
    assert forall i :: 0 <= i < |regs| ==> Created(regs[i]) in Routes(root) && Created(regs[i]).pattern == regs[i].pattern;
    if forall i :: 0 <= i < |regs| ==> Compatible(regs[i].pattern, path) {
      forall r | r in Routes(root) ensures Compatible(r.pattern, path) {
        var i :| 0 <= i < |regs| && r == Created(regs[i]);
      }
    }
  }

  /** Registrations in a row return exactly if they are consistent. */
  lemma {:induction false} BuildIff(regs: seq<Registration>)
    ensures Build(regs).Ok? <==> Consistent(regs)
    decreases |regs|
  {
    hide Admissible, Compatible, AddRoute, Built;
    if regs != [] {
      var k := |regs| - 1;
      BuildIff(regs[..k]);
      ConsistentSnoc(regs);
      if Build(regs[..k]).Ok? {
        AddRouteIff(Build(regs[..k]).node, regs[..k], regs[k]);
      }
    }
  }

  lemma {:induction false} ConsistentSnoc(regs: seq<Registration>)
    requires regs != []
    ensures var k := |regs| - 1;
      Consistent(regs) <==>
        && Consistent(regs[..k]) && Admissible(regs[k])
        && forall i :: 0 <= i < |regs[..k]| ==> Compatible(regs[..k][i].pattern, regs[k].pattern)
  {
    hide Admissible, Compatible;
    var k := |regs| - 1;
    assert forall i :: 0 <= i < k ==> regs[..k][i] == regs[i];
  }

  /** The order does not matter: if registrations return, so does any choice of them in any order. */
  lemma {:induction false} OrderIrrelevant(regs: seq<Registration>, some: seq<Registration>, from: seq<nat>)
    requires Build(regs).Ok? && |from| == |some| && Distinct(from)
    requires forall i :: 0 <= i < |some| ==> from[i] < |regs| && some[i] == regs[from[i]]
    ensures Build(some).Ok?
  {
    hide Admissible, Compatible, Build;
    BuildIff(regs);
    BuildIff(some);
    forall i, j | 0 <= i < j < |some| ensures Compatible(some[i].pattern, some[j].pattern) {
      Symmetric(some[i].pattern, some[j].pattern);
      assert from[i] != from[j];
    }
  }
}
