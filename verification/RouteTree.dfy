/** gin's radix tree of routes as a value, the shape every reachable tree has, and the proof that
    walking the tree finds exactly the route a linear scan with the reference matcher finds. */
module RouteTree {
  import opened Common
  import opened RoutePatterns

  /** A chain of handlers; the empty chain is "no handlers registered here". */
  type HandlersChain = seq<nat>

  datatype NodeType = Static | Root | ParamNode | CatchAll

  datatype Node = Node(
    path: string,
    indices: string,
    wildChild: bool,
    nType: NodeType,
    priority: nat,
    children: seq<Node>,
    handlers: HandlersChain,
    fullPath: string)

  datatype Route = Route(pattern: string, handlers: HandlersChain, fullPath: string)

  // ---------------------------------------------------------------- the routes a tree holds

  function Prefixed(p: string, rs: seq<Route>): (ps: seq<Route>)
    ensures |ps| == |rs|
    ensures forall i :: 0 <= i < |rs| ==> ps[i] == rs[i].(pattern := p + rs[i].pattern)
  {
    if rs == [] then [] else [rs[0].(pattern := p + rs[0].pattern)] + Prefixed(p, rs[1..])
  }

  function Own(n: Node): seq<Route> {
    if n.handlers == [] then [] else [Route("", n.handlers, n.fullPath)]
  }

  /** The routes at and under `n`, patterns taken from the end of `n.path`. */
  function Below(n: Node): seq<Route>
    decreases n, 0
  {
    Own(n) + RoutesOfAll(n.children)
  }

  /** The routes at and under `n`, patterns taken from the start of `n.path`. */
  function Routes(n: Node): seq<Route>
    decreases n, 1
  {
    Prefixed(n.path, Below(n))
  }

  function RoutesOfAll(cs: seq<Node>): seq<Route>
    decreases cs, 0
  {
    if cs == [] then [] else Routes(cs[0]) + RoutesOfAll(cs[1..])
  }

  lemma {:induction false} RoutesOfAllMember(cs: seq<Node>, r: Route)
    ensures r in RoutesOfAll(cs) <==> exists i :: 0 <= i < |cs| && r in Routes(cs[i])
  {
    if cs != [] {
      RoutesOfAllMember(cs[1..], r);
      assert forall i :: 0 <= i < |cs[1..]| ==> cs[1..][i] == cs[i + 1];
      assert forall i :: 1 <= i < |cs| ==> cs[i] == cs[1..][i - 1];
    }
  }

  lemma {:induction false} PrefixedMember(p: string, rs: seq<Route>, r: Route)
    ensures r in Prefixed(p, rs) <==> p <= r.pattern && r.(pattern := r.pattern[|p|..]) in rs
  {
    var ps := Prefixed(p, rs);
    if r in ps {
      var i :| 0 <= i < |ps| && ps[i] == r;
      assert r.pattern[|p|..] == rs[i].pattern;
    }
    if p <= r.pattern && r.(pattern := r.pattern[|p|..]) in rs {
      var i :| 0 <= i < |rs| && rs[i] == r.(pattern := r.pattern[|p|..]);
      assert p + r.pattern[|p|..] == r.pattern;
      assert ps[i] == r;
    }
  }

  lemma {:induction false} PrefixedEmpty(rs: seq<Route>)
    ensures Prefixed("", rs) == rs
  {
    assert forall i :: 0 <= i < |rs| ==> "" + rs[i].pattern == rs[i].pattern;
  }

  // ---------------------------------------------------------------- the shape of reachable trees

  ghost predicate DistinctChars(s: string) {
    forall i, j :: 0 <= i < j < |s| ==> s[i] != s[j]
  }

  /** Every route under `n` starts with `c`. */
  predicate Starts(n: Node, c: char) {
    if n.path == "" then c == '/' else n.path[0] == c
  }

  /** The variable part of a catch-all. */
  ghost predicate CatchAllLeaf(n: Node) {
    && n.nType == CatchAll && !n.wildChild && n.children == [] && n.handlers != [] && n.priority == 1
    && |n.path| >= 3 && n.path[..2] == "/*" && Literal(n.path[2..]) && '/' !in n.path[2..]
  }

  /** The empty node that stands before the variable part of a catch-all. */
  ghost predicate CatchAllOk(n: Node) {
    && n.nType == CatchAll && n.path == "" && n.wildChild && n.handlers == [] && n.priority == 1
    && |n.children| == 1 && CatchAllLeaf(n.children[0])
  }

  ghost predicate Sorted(cs: seq<Node>) {
    forall i, j :: 0 <= i < j < |cs| ==> cs[i].priority >= cs[j].priority
  }

  /** Priorities count routes; a node without routes does not exist. */
  ghost predicate Counted(n: Node) {
    n.priority == |Routes(n)| && n.priority >= 1
  }

  ghost predicate ParamOk(n: Node)
    decreases n
  {
    && n.nType == ParamNode && !n.wildChild && Counted(n)
    && |n.path| >= 2 && n.path[0] == ':' && Literal(n.path[1..]) && '/' !in n.path
    && |n.children| <= 1
    && (n.children == [] ==> n.indices == "")
    && (n.indices == "" || n.indices == "/")
    && forall i :: 0 <= i < |n.children| ==> n.children[i].nType == Static && StaticOk(n.children[i]) && Starts(n.children[i], '/')
  }

  ghost predicate ChildOk(n: Node, c: char)
    decreases n, 1
  {
    (n.nType == Static && StaticOk(n) && Starts(n, c)) || (CatchAllOk(n) && c == '/')
  }

  ghost predicate StaticOk(n: Node)
    decreases n, 0
  {
    && (n.nType == Static || n.nType == Root) && Literal(n.path) && Counted(n)
    && (if n.wildChild then n.indices == "" && |n.children| == 1 && ParamOk(n.children[0])
        else
          && |n.indices| == |n.children| && DistinctChars(n.indices) && Sorted(n.children)
          && forall i :: 0 <= i < |n.children| ==> ChildOk(n.children[i], n.indices[i]))
    && (n.path == "" ==> n.handlers == [] && !n.wildChild && |n.children| == 1 && CatchAllOk(n.children[0]))
  }

  /** Children sorted by priority and aligned with distinct index bytes. */
  ghost predicate ChildrenOk(cs: seq<Node>, indices: string) {
    && |indices| == |cs| && DistinctChars(indices) && Sorted(cs)
    && forall i :: 0 <= i < |cs| ==> ChildOk(cs[i], indices[i])
  }

  /** The definition of `StaticOk`, one level deep. */
  lemma {:induction false} StaticShape(n: Node)
    ensures StaticOk(n) <==>
      && (n.nType == Static || n.nType == Root) && Literal(n.path) && Counted(n)
      && (if n.wildChild then n.indices == "" && |n.children| == 1 && ParamOk(n.children[0])
          else ChildrenOk(n.children, n.indices))
      && (n.path == "" ==> n.handlers == [] && !n.wildChild && |n.children| == 1 && CatchAllOk(n.children[0]))
  {
    hide ChildOk, ParamOk, Counted, CatchAllOk, Sorted, DistinctChars;
  }

  // ---------------------------------------------------------------- lookup

  /** What `getValue` reports; the empty chain means "not found". `params` is what was saved on the way. */
  datatype NodeValue = NodeValue(handlers: HandlersChain, fullPath: string, params: seq<Param>)

  function IndexOf(s: string, c: char): (k: nat)
    ensures k <= |s| && c !in s[..k] && (k < |s| ==> s[k] == c)
  {
    if s == "" || s[0] == c then 0 else 1 + IndexOf(s[1..], c)
  }

  function ValueAt(n: Node, params: seq<Param>): NodeValue {
    NodeValue(n.handlers, if n.handlers == [] then "" else n.fullPath, params)
  }

  function NotFound(params: seq<Param>): NodeValue {
    NodeValue([], "", params)
  }

  /** `getValue` from node `n`, with the parameters saved so far. */
  ghost function Lookup(n: Node, path: string, params: seq<Param>): NodeValue
    requires StaticOk(n) || CatchAllOk(n)
    decreases n
  {
    if |path| > |n.path| && path[..|n.path|] == n.path then
      var rest := path[|n.path|..];
      if !n.wildChild then
        var k := IndexOf(n.indices, rest[0]);
        if k < |n.indices| then assert ChildOk(n.children[k], n.indices[k]); Lookup(n.children[k], rest, params)
        else NotFound(params)
      else
        var c := n.children[0];
        assert StaticOk(n) ==> ParamOk(c);
        assert CatchAllOk(n) ==> CatchAllLeaf(c);
        if c.nType == ParamNode then LookupParam(c, rest, params)
        else NodeValue(c.handlers, c.fullPath, params + [Param(c.path[2..], rest)])
    else if path == n.path then ValueAt(n, params)
    else NotFound(params)
  }

  /** The parameter case of `getValue`: save one segment, then go deeper or stop. */
  ghost function LookupParam(c: Node, rest: string, params: seq<Param>): NodeValue
    requires ParamOk(c)
    decreases c
  {
    var e := SegmentEnd(rest);
    var saved := params + [Param(c.path[1..], rest[..e])];
    if e < |rest| then
      if |c.children| > 0 then Lookup(c.children[0], rest[e..], saved) else NotFound(saved)
    else ValueAt(c, saved)
  }

  // ---------------------------------------------------------------- lookup agrees with the reference matcher

  lemma {:induction false} CatchAllRoutes(n: Node)
    requires CatchAllOk(n)
    ensures Routes(n) == [Route(n.children[0].path, n.children[0].handlers, n.children[0].fullPath)]
  {
    var leaf := n.children[0];
    assert RoutesOfAll(n.children) == Routes(leaf) + RoutesOfAll(n.children[1..]) && RoutesOfAll(leaf.children) == [];
    assert leaf.path + "" == leaf.path && "" + leaf.path == leaf.path;
    assert Below(leaf) == [Route("", leaf.handlers, leaf.fullPath)];
    assert Routes(leaf) == [Route(leaf.path, leaf.handlers, leaf.fullPath)];
    assert Below(n) == Routes(leaf);
  }

  lemma {:induction false} HolderRoutes(n: Node)
    requires StaticOk(n) && n.path == ""
    ensures Routes(n) == Routes(n.children[0])
  {
    hide Counted, Sorted, DistinctChars, CatchAllOk;
    assert RoutesOfAll(n.children) == Routes(n.children[0]) + RoutesOfAll(n.children[1..]);
    assert Below(n) == Routes(n.children[0]);
    PrefixedEmpty(Below(n));
  }

  lemma {:induction false} RoutesStart(n: Node, c: char, r: Route)
    requires ChildOk(n, c) && r in Routes(n)
    ensures r.pattern != "" && r.pattern[0] == c
  {
    hide Counted, Sorted, DistinctChars;
    if CatchAllOk(n) {
      CatchAllRoutes(n);
    } else if n.path == "" {
      HolderRoutes(n);
      CatchAllRoutes(n.children[0]);
    } else {
      PrefixedMember(n.path, Below(n), r);
    }
  }

  lemma {:induction false} IndexLiteral(n: Node, i: nat)
    requires StaticOk(n) && !n.wildChild && i < |n.children|
    ensures n.indices[i] != ':' && n.indices[i] != '*'
  {
    var c := n.children[i];
    assert ChildOk(c, n.indices[i]);
    if !CatchAllOk(c) {
      assert StaticOk(c) && Literal(c.path);
    }
  }

  /** A route of a static node: its own, or one below a child that starts with that child's index. */
  lemma {:induction false} StaticRoute(n: Node, r: Route) returns (i: nat)
    requires StaticOk(n) && !n.wildChild && r in Routes(n)
    ensures n.path <= r.pattern
    ensures i <= |n.children|
    ensures i == |n.children| ==> n.handlers != [] && r == Route(n.path, n.handlers, n.fullPath)
    ensures i < |n.children| ==>
      var q := r.pattern[|n.path|..];
      q != "" && q[0] == n.indices[i] && q[0] != '*' && q[0] != ':' && r.(pattern := q) in Routes(n.children[i])
  {
    PrefixedMember(n.path, Below(n), r);
    var q := r.(pattern := r.pattern[|n.path|..]);
    if q in Own(n) {
      i := |n.children|;
    } else {
      RoutesOfAllMember(n.children, q);
      i :| 0 <= i < |n.children| && q in Routes(n.children[i]);
      RoutesStart(n.children[i], n.indices[i], q);
      IndexLiteral(n, i);
    }
  }

  lemma {:induction false} ChildRoute(n: Node, i: nat, q: Route)
    requires i < |n.children| && q in Routes(n.children[i])
    ensures q.(pattern := n.path + q.pattern) in Routes(n)
  {
    RoutesOfAllMember(n.children, q);
    var r := q.(pattern := n.path + q.pattern);
    assert r.pattern[|n.path|..] == q.pattern;
    PrefixedMember(n.path, Below(n), r);
  }

  lemma {:induction false} OwnRoute(n: Node)
    requires n.handlers != []
    ensures Route(n.path, n.handlers, n.fullPath) in Routes(n)
  {
    var r := Route(n.path, n.handlers, n.fullPath);
    assert Own(n)[0] in Below(n) && n.path[|n.path|..] == "";
    PrefixedMember(n.path, Below(n), r);
  }

  /** A route below a parameter: the parameter alone, or followed by a route that starts with '/'. */
  lemma {:induction false} ParamRoute(c: Node, q: Route) returns (own: bool)
    requires ParamOk(c) && q in Routes(c)
    ensures c.path <= q.pattern
    ensures own ==> c.handlers != [] && q == Route(c.path, c.handlers, c.fullPath)
    ensures !own ==>
      var rest := q.pattern[|c.path|..];
      |c.children| == 1 && rest != "" && rest[0] == '/' && q.(pattern := rest) in Routes(c.children[0])
  {
    PrefixedMember(c.path, Below(c), q);
    var x := q.(pattern := q.pattern[|c.path|..]);
    own := x in Own(c);
    if !own {
      RoutesOfAllMember(c.children, x);
      assert ChildOk(c.children[0], '/');
      RoutesStart(c.children[0], '/', x);
    }
  }

  lemma {:induction false} CatchAllFinds(n: Node, path: string, params: seq<Param>, r: Route, ps: seq<Param>)
    requires CatchAllOk(n) && r in Routes(n) && Match(r.pattern, path) == Some(ps)
    ensures Lookup(n, path, params) == NodeValue(r.handlers, r.fullPath, params + ps)
  {
    CatchAllRoutes(n);
    assert path[..0] == "" && path[0..] == path;
  }

  /** Completeness: if some route of the tree matches the path, lookup returns that route and its captures. */
  lemma {:induction false} LookupFinds(n: Node, path: string, params: seq<Param>, r: Route, ps: seq<Param>)
    requires StaticOk(n) || CatchAllOk(n)
    requires r in Routes(n) && Match(r.pattern, path) == Some(ps)
    ensures Lookup(n, path, params) == NodeValue(r.handlers, r.fullPath, params + ps)
    decreases n, 1
  {
    hide Counted, Sorted;
    if CatchAllOk(n) {
      CatchAllFinds(n, path, params, r, ps);
    } else if n.wildChild {
      WildFinds(n, path, params, r, ps);
    } else {
      var i := StaticRoute(n, r);
      var q := r.pattern[|n.path|..];
      assert r.pattern == n.path + q;
      MatchLiteral(n.path, q, path);
      var rest := path[|n.path|..];
      if i == |n.children| {
        assert path == n.path;
        assert params + [] == params;
      } else {
        assert rest != "" && rest[0] == n.indices[i];
        var k := IndexOf(n.indices, rest[0]);
        assert k == i;
        LookupFinds(n.children[i], rest, params, r.(pattern := q), ps);
      }
    }
  }

  lemma {:induction false} WildFinds(n: Node, path: string, params: seq<Param>, r: Route, ps: seq<Param>)
    requires StaticOk(n) && n.wildChild && r in Routes(n) && Match(r.pattern, path) == Some(ps)
    ensures Lookup(n, path, params) == NodeValue(r.handlers, r.fullPath, params + ps)
    decreases n, 0
  {
    hide Counted, Match;
    PrefixedMember(n.path, Below(n), r);
    var q := r.(pattern := r.pattern[|n.path|..]);
    assert r.pattern == n.path + q.pattern;
    if q in Own(n) {
      MatchLiteral(n.path, "", path);
      MatchEmpty(path[|n.path|..]);
      assert path == n.path && params + [] == params;
    } else {
      RoutesOfAllMember(n.children, q);
      var own := ParamRoute(n.children[0], q);
      MatchLiteral(n.path, q.pattern, path);
      ParamFinds(n.children[0], path[|n.path|..], params, q, ps);
    }
  }

  lemma {:induction false} ParamFinds(c: Node, rest: string, params: seq<Param>, q: Route, ps: seq<Param>)
    requires ParamOk(c) && q in Routes(c) && Match(q.pattern, rest) == Some(ps)
    ensures rest != "" && LookupParam(c, rest, params) == NodeValue(q.handlers, q.fullPath, params + ps)
    decreases c, 0
  {
    hide Counted, Match;
    var own := ParamRoute(c, q);
    var name, tail := c.path[1..], q.pattern[|c.path|..];
    assert q.pattern == ":" + name + tail;
    MatchParam(name, tail, rest);
    var e := SegmentEnd(rest);
    var p := Param(name, rest[..e]);
    if own {
      MatchEmpty(rest[e..]);
      assert ps == [p];
    } else {
      var ps' := Match(tail, rest[e..]).value;
      MatchNonEmpty(tail, rest[e..]);
      assert StaticOk(c.children[0]);
      LookupFinds(c.children[0], rest[e..], params + [p], q.(pattern := tail), ps');
      assert params + [p] + ps' == params + ps;
    }
  }

  /** Soundness: what lookup reports is a route of the tree that matches, with its captures. */
  lemma {:induction false} LookupSound(n: Node, path: string, params: seq<Param>) returns (r: Route, ps: seq<Param>)
    requires StaticOk(n) || (CatchAllOk(n) && path != "" && path[0] == '/')
    requires Lookup(n, path, params).handlers != []
    ensures r in Routes(n) && Match(r.pattern, path) == Some(ps)
    ensures Lookup(n, path, params) == NodeValue(r.handlers, r.fullPath, params + ps)
    decreases n, 1
  {
    hide Counted, Sorted;
    if CatchAllOk(n) {
      CatchAllRoutes(n);
      r := Routes(n)[0];
      assert path[..0] == "" && path[0..] == path;
      ps := [Param(r.pattern[2..], path)];
    } else if path == n.path {
      OwnRoute(n);
      r, ps := Route(n.path, n.handlers, n.fullPath), [];
      MatchLiteral(n.path, "", path);
      assert n.path + "" == n.path && params + [] == params;
    } else if n.wildChild {
      var q;
      q, ps := ParamSound(n.children[0], path[|n.path|..], params);
      ChildRoute(n, 0, q);
      r := q.(pattern := n.path + q.pattern);
      MatchLiteral(n.path, q.pattern, path);
    } else {
      var rest := path[|n.path|..];
      var i := IndexOf(n.indices, rest[0]);
      var q;
      q, ps := LookupSound(n.children[i], rest, params);
      ChildRoute(n, i, q);
      r := q.(pattern := n.path + q.pattern);
      RoutesStart(n.children[i], n.indices[i], q);
      IndexLiteral(n, i);
      MatchLiteral(n.path, q.pattern, path);
    }
  }

  /** A match below a parameter's child is a match of the parameter followed by it. */
  lemma {:induction false} ParamThen(c: Node, x: Route, rest: string, ps: seq<Param>)
    requires ParamOk(c) && |c.children| == 1 && x in Routes(c.children[0])
    requires rest != "" && Match(x.pattern, rest[SegmentEnd(rest)..]) == Some(ps)
    ensures
      var q := x.(pattern := c.path + x.pattern);
      q in Routes(c) && Match(q.pattern, rest) == Some([Param(c.path[1..], rest[..SegmentEnd(rest)])] + ps)
  {
    hide Counted, Match;
    ChildRoute(c, 0, x);
    assert ChildOk(c.children[0], '/');
    RoutesStart(c.children[0], '/', x);
    assert c.path == ":" + c.path[1..];
    MatchParam(c.path[1..], x.pattern, rest);
  }

  lemma {:induction false} ParamSound(c: Node, rest: string, params: seq<Param>) returns (q: Route, ps: seq<Param>)
    requires ParamOk(c) && rest != "" && LookupParam(c, rest, params).handlers != []
    ensures q in Routes(c) && Match(q.pattern, rest) == Some(ps) && q.pattern != "" && q.pattern[0] == ':'
    ensures LookupParam(c, rest, params) == NodeValue(q.handlers, q.fullPath, params + ps)
    decreases c, 0
  {
    hide Counted, Match;
    var e := SegmentEnd(rest);
    var p := Param(c.path[1..], rest[..e]);
    if e < |rest| {
      assert StaticOk(c.children[0]);
      var x, ps' := LookupSound(c.children[0], rest[e..], params + [p]);
      ParamThen(c, x, rest, ps');
      q, ps := x.(pattern := c.path + x.pattern), [p] + ps';
      assert params + [p] + ps' == params + ps;
    } else {
      OwnRoute(c);
      q, ps := Route(c.path, c.handlers, c.fullPath), [p];
      assert q.pattern == ":" + c.path[1..] + "";
      MatchParam(c.path[1..], "", rest);
      MatchEmpty(rest[e..]);
      assert [p] + [] == [p];
    }
  }
}
