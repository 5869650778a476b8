/** Whole runs of registrations: the tree built from any sequence of registered patterns, none of
    which panicked, answers every request as a linear scan over those patterns would. */
module Router {
  import opened Common
  import opened RoutePatterns
  import opened RouteTree
  import opened RouteInsert

  datatype Registration = Registration(pattern: string, handlers: HandlersChain)

  const NEW_ROOT := Node("", "", false, Static, 0, [], [], "/")

  /** `(*node).addRoute` on the root, behind the assertions of `Engine.addRoute`. */
  ghost function AddRoute(root: Node, reg: Registration): Result
    requires root == NEW_ROOT || StaticOk(root)
  {
    var path := reg.pattern;
    if path == "" || path[0] != '/' || reg.handlers == [] then Panic
    else if root.path == "" && root.children == [] then
      match InsertChild(Bump(root), path, path, reg.handlers)
      case Panic => Panic
      case Ok(n) => Ok(n.(nType := Root))
    else Walk(root, path, path, 0, reg.handlers)
  }

  /** The route a registration creates. */
  function Created(reg: Registration): Route {
    Route(reg.pattern, reg.handlers, reg.pattern)
  }

  /** The tree holds one route for each registration and no other. */
  ghost predicate Built(root: Node, regs: seq<Registration>) {
    if regs == [] then root == NEW_ROOT
    else
      && StaticOk(root) && Starts(root, '/') && |Routes(root)| == |regs|
      && forall r :: r in Routes(root) <==> exists i :: 0 <= i < |regs| && r == Created(regs[i])
  }

  lemma {:induction false} RootTypeIrrelevant(n: Node)
    requires StaticOk(n)
    ensures StaticOk(n.(nType := Root)) && Routes(n.(nType := Root)) == Routes(n)
  {
    var m := n.(nType := Root);
    assert Below(m) == Below(n);
    StaticShape(n);
    StaticShape(m);
  }

  /** One more registration that returns: exactly one more route. */
  lemma {:induction false} AddRouteOk(root: Node, regs: seq<Registration>, reg: Registration)
    requires Built(root, regs) && AddRoute(root, reg).Ok?
    ensures Built(AddRoute(root, reg).node, regs + [reg])
  {
    var m := AddRoute(root, reg).node;
    var x := Created(reg);
    var all := regs + [reg];
    if regs == [] {
      InsertChildOk(Bump(root), reg.pattern, reg.pattern, reg.handlers);
      RootTypeIrrelevant(InsertChild(Bump(root), reg.pattern, reg.pattern, reg.handlers).node);
      assert Routes(m) == [x];
      assert all[0] == reg;
    } else {
      assert !(root.path == "" && root.children == []);
      WalkOk(root, reg.pattern, reg.pattern, 0, reg.handlers);
      forall r
        ensures r in Routes(m) <==> exists i :: 0 <= i < |all| && r == Created(all[i])
      {
        assert r in Routes(m) <==> r in Routes(root) || r == x;
        assert forall i :: 0 <= i < |regs| ==> all[i] == regs[i];
        if r == x { assert all[|regs|] == reg; }
        if i :| 0 <= i < |all| && r == Created(all[i]) { if i < |regs| { assert r == Created(regs[i]); } }
      }
    }
  }

  lemma {:induction false} AddRouteKeeps(root: Node, regs: seq<Registration>, reg: Registration)
    requires Built(root, regs)
    ensures root == NEW_ROOT || StaticOk(root)
    ensures AddRoute(root, reg).Ok? ==> Built(AddRoute(root, reg).node, regs + [reg])
  {
    hide AddRoute;
    if AddRoute(root, reg).Ok? { AddRouteOk(root, regs, reg); }
  }

  /** The tree after registering `regs` in order, or the panic that stopped it. Every tree that is
      reached this way holds exactly the registered routes. */
  ghost function Build(regs: seq<Registration>): (r: Result)
    ensures r.Ok? ==> Built(r.node, regs)
    decreases |regs|
  {
    if regs == [] then Ok(NEW_ROOT)
    else
      var k := |regs| - 1;
      match Build(regs[..k])
      case Panic => Panic
      case Ok(root) =>
        AddRouteKeeps(root, regs[..k], regs[k]);
        assert regs == regs[..k] + [regs[k]];
        AddRoute(root, regs[k])
  }

  /** `getValue` on the root of a built tree, with no parameters saved. */
  ghost function GetValue(regs: seq<Registration>, path: string): NodeValue
    requires Build(regs).Ok?
  {
    var root := Build(regs).node;
    if regs == [] then NotFound([]) else Lookup(root, path, [])
  }

  // ---------------------------------------------------------------- lookup

  /** If a registered pattern matches the path, that registration is what `getValue` returns, with the captures. */
  lemma {:induction false} Complete(regs: seq<Registration>, path: string, i: nat, ps: seq<Param>)
    requires Build(regs).Ok? && i < |regs| && Match(regs[i].pattern, path) == Some(ps)
    ensures GetValue(regs, path) == NodeValue(regs[i].handlers, regs[i].pattern, ps)
  {
    hide Build;
    var root := Build(regs).node;
    assert Created(regs[i]) in Routes(root);
    LookupFinds(root, path, [], Created(regs[i]), ps);
    assert [] + ps == ps;
  }

  /** What `getValue` returns is a registered pattern that matches, with its handlers and captures. */
  lemma {:induction false} Sound(regs: seq<Registration>, path: string) returns (i: nat)
    requires Build(regs).Ok? && GetValue(regs, path).handlers != []
    ensures
      var v := GetValue(regs, path);
      i < |regs| && regs[i] == Registration(v.fullPath, v.handlers) && Match(v.fullPath, path) == Some(v.params)
  {
    hide Build;
    var root := Build(regs).node;
    var r, ps := LookupSound(root, path, []);
    assert [] + ps == ps;
    i :| 0 <= i < |regs| && r == Created(regs[i]);
  }

  // ---------------------------------------------------------------- every pattern once

  ghost predicate DistinctPatterns(rs: seq<Route>) {
    forall i, j :: 0 <= i < j < |rs| ==> rs[i].pattern != rs[j].pattern
  }

  lemma {:induction false} DistinctConcat(a: seq<Route>, b: seq<Route>)
    requires DistinctPatterns(a) && DistinctPatterns(b)
    requires forall x, y :: x in a && y in b ==> x.pattern != y.pattern
    ensures DistinctPatterns(a + b)
  {
    var c := a + b;
    forall i, j | 0 <= i < j < |c|
      ensures c[i].pattern != c[j].pattern
    {
      if i < |a| && j >= |a| { assert c[i] in a && c[j] in b; }
    }
  }

  lemma {:induction false} DistinctPrefixed(p: string, rs: seq<Route>)
    requires DistinctPatterns(rs)
    ensures DistinctPatterns(Prefixed(p, rs))
  {
    forall i, j | 0 <= i < j < |rs|
      ensures p + rs[i].pattern != p + rs[j].pattern
    {
      assert (p + rs[i].pattern)[|p|..] == rs[i].pattern && (p + rs[j].pattern)[|p|..] == rs[j].pattern;
    }
  }

  /** Children with distinct index bytes hold different patterns. */
  lemma {:induction false} DistinctChildren(cs: seq<Node>, indices: string)
    requires |cs| == |indices| && DistinctChars(indices)
    requires forall i :: 0 <= i < |cs| ==> ChildOk(cs[i], indices[i])
    ensures DistinctPatterns(RoutesOfAll(cs))
    ensures forall r :: r in RoutesOfAll(cs) ==> r.pattern != "" && r.pattern[0] in indices
    decreases cs, 0
  {
    hide ChildOk;
    if cs != [] {
      assert ChildOk(cs[0], indices[0]);
      forall i | 0 <= i < |cs[1..]| ensures ChildOk(cs[1..][i], indices[1..][i]) { assert ChildOk(cs[i + 1], indices[i + 1]); }
      DistinctChild(cs[0], indices[0]);
      DistinctChildren(cs[1..], indices[1..]);
      forall r | r in Routes(cs[0]) ensures r.pattern != "" && r.pattern[0] == indices[0] { RoutesStart(cs[0], indices[0], r); }
      DistinctConcat(Routes(cs[0]), RoutesOfAll(cs[1..]));
    }
  }

  lemma {:induction false} DistinctChild(c: Node, b: char)
    requires ChildOk(c, b)
    ensures DistinctPatterns(Routes(c))
    decreases c, 2
  {
    if CatchAllOk(c) { CatchAllRoutes(c); } else { DistinctStatic(c); }
  }

  lemma {:induction false} DistinctStatic(n: Node)
    requires StaticOk(n)
    ensures DistinctPatterns(Routes(n))
    decreases n, 1
  {
    if n.wildChild {
      DistinctParam(n.children[0]);
      RoutesOfOne(n.children[0]);
      assert n.children == [n.children[0]];
      forall r | r in Routes(n.children[0]) ensures r.pattern != "" { var own := ParamRoute(n.children[0], r); }
    } else {
      DistinctChildren(n.children, n.indices);
    }
    DistinctConcat(Own(n), RoutesOfAll(n.children));
    DistinctPrefixed(n.path, Below(n));
  }

  lemma {:induction false} DistinctParam(c: Node)
    requires ParamOk(c)
    ensures DistinctPatterns(Routes(c))
    decreases c, 1
  {
    if c.children != [] {
      var d := c.children[0];
      assert ChildOk(d, '/');
      DistinctStatic(d);
      RoutesOfOne(d);
      assert c.children == [d];
      forall r | r in Routes(d) ensures r.pattern != "" { RoutesStart(d, '/', r); }
    }
    DistinctConcat(Own(c), RoutesOfAll(c.children));
    DistinctPrefixed(c.path, Below(c));
  }

  function Patterns(rs: seq<Route>): (ps: seq<string>)
    ensures |ps| == |rs| && forall i :: 0 <= i < |rs| ==> ps[i] == rs[i].pattern
  {
    seq(|rs|, i requires 0 <= i < |rs| => rs[i].pattern)
  }

  function Elements(ss: seq<string>): set<string> {
    set s | s in ss
  }

  lemma {:induction false} SetOfSeq(ss: seq<string>)
    ensures |Elements(ss)| <= |ss|
    ensures (forall i, j :: 0 <= i < j < |ss| ==> ss[i] != ss[j]) ==> |Elements(ss)| == |ss|
  {
    if ss != [] {
      var k := |ss| - 1;
      SetOfSeq(ss[..k]);
      assert Elements(ss) == Elements(ss[..k]) + {ss[k]};
    }
  }

  function Names(regs: seq<Registration>): (ns: seq<string>)
    ensures |ns| == |regs| && forall i :: 0 <= i < |regs| ==> ns[i] == regs[i].pattern
  {
    seq(|regs|, i requires 0 <= i < |regs| => regs[i].pattern)
  }

  /** Registering the same pattern twice never returns. */
  lemma {:induction false} PatternsDistinct(regs: seq<Registration>, i: nat, j: nat)
    requires Build(regs).Ok? && i < j < |regs|
    ensures regs[i].pattern != regs[j].pattern
  {
    hide Build, StaticOk, Routes;
    var rs := Routes(Build(regs).node);
    DistinctStatic(Build(regs).node);
    var others := Names(regs[..j] + regs[j + 1..]);
    SetOfSeq(Patterns(rs));
    SetOfSeq(others);
    if regs[i].pattern == regs[j].pattern {
      forall p | p in Patterns(rs)
        ensures p in others
      {
        var k :| 0 <= k < |rs| && rs[k].pattern == p;
        assert rs[k] in rs;
        var m :| 0 <= m < |regs| && rs[k] == Created(regs[m]);
        assert others[if m == j then i else if m < j then m else m - 1] == p;
      }
      SubsetSize(Elements(Patterns(rs)), Elements(others));
      assert false;
    }
  }

  lemma {:induction false} SubsetSize(a: set<string>, b: set<string>)
    requires a <= b
    ensures |a| <= |b|
  {
    assert b == a + (b - a);
  }

  /** At most one registered pattern matches a path. */
  lemma {:induction false} MatchUnique(regs: seq<Registration>, path: string, i: nat, j: nat)
    requires Build(regs).Ok? && i < |regs| && j < |regs|
    requires Match(regs[i].pattern, path).Some? && Match(regs[j].pattern, path).Some?
    ensures i == j
  {
    hide Build, Match;
    Complete(regs, path, i, Match(regs[i].pattern, path).value);
    Complete(regs, path, j, Match(regs[j].pattern, path).value);
    if i < j { PatternsDistinct(regs, i, j); }
    if j < i { PatternsDistinct(regs, j, i); }
  }

  // ---------------------------------------------------------------- listing the routes

  /** `iterate`: the full path is accumulated on the way down. */
  function Iterate(path: string, n: Node): seq<Route>
    decreases n, 0
  {
    var p := path + n.path;
    (if n.handlers == [] then [] else [Route(p, n.handlers, n.fullPath)]) + IterateAll(p, n.children)
  }

  function IterateAll(path: string, cs: seq<Node>): seq<Route>
    decreases cs, 0
  {
    if cs == [] then [] else Iterate(path, cs[0]) + IterateAll(path, cs[1..])
  }

  lemma {:induction false} IterateRoutes(path: string, n: Node)
    ensures Iterate(path, n) == Prefixed(path, Routes(n))
    decreases n, 0
  {
    var p := path + n.path;
    IterateAllRoutes(p, n.children);
    PrefixedTwice(path, n.path, Below(n));
    PrefixedConcat(p, Own(n), RoutesOfAll(n.children));
    assert p + "" == p;
    assert n.handlers != [] ==> Prefixed(p, Own(n)) == [Route(p, n.handlers, n.fullPath)];
  }

  lemma {:induction false} IterateAllRoutes(path: string, cs: seq<Node>)
    ensures IterateAll(path, cs) == Prefixed(path, RoutesOfAll(cs))
    decreases cs, 0
  {
    if cs != [] {
      IterateRoutes(path, cs[0]);
      IterateAllRoutes(path, cs[1..]);
      PrefixedConcat(path, Routes(cs[0]), RoutesOfAll(cs[1..]));
    }
  }

  lemma {:induction false} PrefixedConcat(p: string, a: seq<Route>, b: seq<Route>)
    ensures Prefixed(p, a + b) == Prefixed(p, a) + Prefixed(p, b)
  {
  }

  /** `Routes` lists every registration exactly once, under its own pattern, and nothing else. */
  lemma {:induction false} ListsEachOnce(regs: seq<Registration>)
    requires Build(regs).Ok?
    ensures
      var listed := Iterate("", Build(regs).node);
      && |listed| == |regs| && DistinctPatterns(listed)
      && (forall i :: 0 <= i < |regs| ==> Created(regs[i]) in listed)
      && forall r :: r in listed ==> r.fullPath == r.pattern && Registration(r.pattern, r.handlers) in regs
  {
    hide Build;
    var root := Build(regs).node;
    IterateRoutes("", root);
    PrefixedEmpty(Routes(root));
    if regs == [] {
      assert Routes(root) == [];
    } else {
      DistinctStatic(root);
      forall r | r in Routes(root)
        ensures Registration(r.pattern, r.handlers) in regs && r.fullPath == r.pattern
      {
        var i :| 0 <= i < |regs| && r == Created(regs[i]);
        assert regs[i] == Registration(r.pattern, r.handlers);
      }
    }
  }

  // ---------------------------------------------------------------- room for parameters

  /** `countParams`: the number of ':' and '*' bytes, in 16 bits. */
  function CountParams(path: string): nat {
    Wildcards(path) % 0x1_0000
  }

  /** `engine.maxParams` after the registrations; contexts allocated now have room for that many parameters. */
  function MaxParams(regs: seq<Registration>): (m: nat)
    ensures forall i :: 0 <= i < |regs| ==> CountParams(regs[i].pattern) <= m
    ensures m == 0 || exists i :: 0 <= i < |regs| && m == CountParams(regs[i].pattern)
  {
    if regs == [] then 0
    else
      var k := |regs| - 1;
      var m, c := MaxParams(regs[..k]), CountParams(regs[k].pattern);
      assert forall i :: 0 <= i < k ==> regs[..k][i] == regs[i];
      if c > m then c else m
  }

  lemma {:induction false} ParamWildcards(c: Node)
    requires ParamOk(c)
    ensures Wildcards(c.path) == 1
  {
    LiteralHasNoWildcards(c.path[1..]);
  }

  lemma {:induction false} SomeRoute(n: Node) returns (r: Route)
    requires NodeOk(n)
    ensures r in Routes(n)
  {
    if CatchAllOk(n) { CatchAllRoutes(n); }
    assert Routes(n) != [];
    r := Routes(n)[0];
  }

  lemma {:induction false} ChildRouteWildcards(n: Node, i: nat, q: Route) returns (r: Route)
    requires i < |n.children| && q in Routes(n.children[i])
    ensures r in Routes(n) && Wildcards(r.pattern) == Wildcards(n.path) + Wildcards(q.pattern)
  {
    ChildRoute(n, i, q);
    r := q.(pattern := n.path + q.pattern);
    WildcardsConcat(n.path, q.pattern);
  }

  /** However a lookup ends, it has saved no more parameters than some route of the tree has wildcards. */
  lemma {:induction false} SavedParams(n: Node, path: string, params: seq<Param>) returns (r: Route)
    requires StaticOk(n) || CatchAllOk(n)
    ensures r in Routes(n) && |Lookup(n, path, params).params| <= |params| + Wildcards(r.pattern)
    decreases n, 1
  {
    hide Counted;
    if CatchAllOk(n) {
      CatchAllRoutes(n);
      r := Routes(n)[0];
      WildcardsConcat("/*", n.children[0].path[2..]);
      assert r.pattern == "/*" + n.children[0].path[2..] && Wildcards("/*") == 1;
    } else if |path| > |n.path| && path[..|n.path|] == n.path {
      var rest := path[|n.path|..];
      if n.wildChild {
        var q := SavedParamsBelow(n.children[0], rest, params);
        r := ChildRouteWildcards(n, 0, q);
      } else {
        var k := IndexOf(n.indices, rest[0]);
        if k < |n.indices| {
          IndexedChild(n, k);
          var q := SavedParams(n.children[k], rest, params);
          r := ChildRouteWildcards(n, k, q);
        } else {
          r := SomeRoute(n);
        }
      }
    } else {
      r := SomeRoute(n);
    }
  }

  lemma {:induction false} SavedParamsBelow(c: Node, rest: string, params: seq<Param>) returns (q: Route)
    requires ParamOk(c)
    ensures q in Routes(c) && |LookupParam(c, rest, params).params| <= |params| + Wildcards(q.pattern)
    decreases c, 0
  {
    hide Counted;
    var e := SegmentEnd(rest);
    ParamWildcards(c);
    if e < |rest| && |c.children| > 0 {
      assert StaticOk(c.children[0]);
      var x := SavedParams(c.children[0], rest[e..], params + [Param(c.path[1..], rest[..e])]);
      q := ChildRouteWildcards(c, 0, x);
    } else {
      q := SomeRoute(c);
      var own := ParamRoute(c, q);
      WildcardsConcat(c.path, q.pattern[|c.path|..]);
      assert q.pattern == c.path + q.pattern[|c.path|..];
    }
  }

  /** A pattern, read as a request path, matches itself and captures one parameter per wildcard. */
  ghost predicate MatchesItself(pattern: string) {
    Match(pattern, pattern).Some? && |Match(pattern, pattern).value| == Wildcards(pattern)
  }

  lemma {:induction false} SelfMatchLiteral(lit: string, rest: string)
    requires Literal(lit) && (rest == "" || rest[0] != '*') && MatchesItself(rest)
    ensures MatchesItself(lit + rest)
  {
    MatchLiteral(lit, rest, lit + rest);
    assert (lit + rest)[|lit|..] == rest;
    WildcardsConcat(lit, rest);
    LiteralHasNoWildcards(lit);
  }

  lemma {:induction false} SelfMatchParam(c: Node, rest: string)
    requires ParamOk(c) && (rest == "" || rest[0] == '/') && MatchesItself(rest)
    ensures MatchesItself(c.path + rest)
  {
    var p := c.path + rest;
    assert p == ":" + c.path[1..] + rest;
    SegmentEndIs(p, |c.path|);
    assert p[|c.path|..] == rest;
    MatchParam(c.path[1..], rest, p);
    WildcardsConcat(c.path, rest);
    ParamWildcards(c);
  }

  lemma {:induction false} SelfMatch(n: Node, r: Route)
    requires (StaticOk(n) || CatchAllOk(n)) && r in Routes(n)
    ensures MatchesItself(r.pattern)
    decreases n, 1
  {
    hide Counted, MatchesItself;
    if CatchAllOk(n) {
      CatchAllRoutes(n);
      SelfMatchCatchAll(n.children[0]);
    } else {
      PrefixedMember(n.path, Below(n), r);
      var q := r.(pattern := r.pattern[|n.path|..]);
      assert r.pattern == n.path + q.pattern;
      if q in Own(n) {
        SelfMatchEmpty();
        SelfMatchLiteral(n.path, "");
      } else if n.wildChild {
        RoutesOfAllMember(n.children, q);
        SelfMatchBelow(n.children[0], q);
        var own := ParamRoute(n.children[0], q);
        SelfMatchLiteral(n.path, q.pattern);
      } else {
        var i := StaticRoute(n, r);
        IndexedChild(n, i);
        SelfMatch(n.children[i], q);
        SelfMatchLiteral(n.path, q.pattern);
      }
    }
  }

  lemma {:induction false} SelfMatchEmpty()
    ensures MatchesItself("")
  {
  }

  lemma {:induction false} SelfMatchCatchAll(leaf: Node)
    requires CatchAllLeaf(leaf)
    ensures MatchesItself(leaf.path)
  {
    WildcardsConcat("/*", leaf.path[2..]);
    LiteralHasNoWildcards(leaf.path[2..]);
    assert leaf.path == "/*" + leaf.path[2..] && Wildcards("/*") == 1;
  }

  lemma {:induction false} SelfMatchBelow(c: Node, q: Route)
    requires ParamOk(c) && q in Routes(c)
    ensures MatchesItself(q.pattern)
    decreases c, 0
  {
    hide Counted, MatchesItself;
    var own := ParamRoute(c, q);
    var rest := q.pattern[|c.path|..];
    assert q.pattern == c.path + rest;
    if own {
      SelfMatchEmpty();
    } else {
      assert StaticOk(c.children[0]);
      SelfMatch(c.children[0], q.(pattern := rest));
    }
    SelfMatchParam(c, rest);
  }

  /** Every registered route is found under its own pattern, with one parameter per wildcard. */
  lemma {:induction false} FindsItself(regs: seq<Registration>, i: nat)
    requires Build(regs).Ok? && i < |regs|
    ensures
      var v := GetValue(regs, regs[i].pattern);
      v.handlers == regs[i].handlers && v.fullPath == regs[i].pattern && |v.params| == Wildcards(regs[i].pattern)
  {
    hide Build, GetValue;
    var p := regs[i].pattern;
    SelfMatch(Build(regs).node, Created(regs[i]));
    Complete(regs, p, i, Match(p, p).value);
  }

  lemma {:induction false} SavedWithinSomePattern(regs: seq<Registration>, path: string)
    requires Build(regs).Ok? && regs != []
    ensures exists i :: 0 <= i < |regs| && |GetValue(regs, path).params| <= Wildcards(regs[i].pattern)
  {
    var root := Build(regs).node;
    hide Build, StaticOk, Lookup;
    var r := SavedParams(root, path, []);
    var i :| 0 <= i < |regs| && r == Created(regs[i]);
  }

  /** Lookups stay within `maxParams` exactly when no registered pattern overflows the 16-bit count. */
  lemma {:induction false} ParamsFit(regs: seq<Registration>)
    requires Build(regs).Ok?
    ensures
      (forall path :: |GetValue(regs, path).params| <= MaxParams(regs)) <==>
      (forall i :: 0 <= i < |regs| ==> Wildcards(regs[i].pattern) < 0x1_0000)
  {
    hide Build, Built, GetValue;
    if forall i :: 0 <= i < |regs| ==> Wildcards(regs[i].pattern) < 0x1_0000 {
      forall path ensures |GetValue(regs, path).params| <= MaxParams(regs) { FitsPath(regs, path); }
    } else {
      var i :| 0 <= i < |regs| && Wildcards(regs[i].pattern) >= 0x1_0000;
      FindsItself(regs, i);
      assert |GetValue(regs, regs[i].pattern).params| > MaxParams(regs);
    }
  }

  lemma {:induction false} FitsPath(regs: seq<Registration>, path: string)
    requires Build(regs).Ok? && forall i :: 0 <= i < |regs| ==> Wildcards(regs[i].pattern) < 0x1_0000
    ensures |GetValue(regs, path).params| <= MaxParams(regs)
  {
    hide Build, Built;
    if regs != [] {
      hide GetValue;
      SavedWithinSomePattern(regs, path);
      var i :| 0 <= i < |regs| && |GetValue(regs, path).params| <= Wildcards(regs[i].pattern);
      assert CountParams(regs[i].pattern) <= MaxParams(regs);
    }
  }

  /** `n` parameters in a row. */
  function ParamRow(n: nat): string {
    if n == 0 then "" else "/:a" + ParamRow(n - 1)
  }

  lemma {:induction false} ParamRowWildcards(n: nat)
    ensures Wildcards(ParamRow(n)) == n && (n > 0 ==> ParamRow(n)[0] == '/')
  {
    if n > 0 {
      ParamRowWildcards(n - 1);
      WildcardsConcat("/:a", ParamRow(n - 1));
      assert Wildcards("/:a") == 1 + Wildcards("a") && Wildcards("a") == 0 by {
        assert "/:a"[1..] == ":a" && ":a"[1..] == "a" && "a"[1..] == "";
      }
    }
  }

  lemma {:induction false} ParamRowFirst(n: nat)
    requires n > 0
    ensures FindWildcard(ParamRow(n)) == Wildcard(":a", 1, true)
    ensures ":a" <= ParamRow(n)[1..] && ParamRow(n)[1..][2..] == ParamRow(n - 1)
  {
    ParamRowWildcards(n - 1);
    var p, rest := ParamRow(n), ParamRow(n - 1);
    assert p == "/:a" + rest;
    assert p[1..] == ":a" + rest && p[2..] == "a" + rest;
    assert FirstWild(p) == 1;
    SegmentEndIs(p[2..], 1);
    assert p[1..3] == ":a" && ":a"[1..] == "a";
  }

  /** Rows of parameters can be registered, whatever their length. */
  lemma {:induction false} ParamRowInserts(node: Node, n: nat, full: string, h: HandlersChain)
    requires n > 0 && node.children == []
    ensures InsertChild(node, ParamRow(n), full, h).Ok?
    decreases n
  {
    ParamRowFirst(n);
    hide FindWildcard, ParamRow;
    if n > 1 { ParamRowInserts(NewNode(full, 1), n - 1, full, h); } else { ParamRowEmpty(); }
  }

  lemma {:induction false} ParamRowEmpty()
    ensures ParamRow(0) == ""
  {
  }

  /** The 16-bit count does overflow: one pattern with 65536 parameters leaves room for none of them. */
  lemma {:induction false} ParamsOverflow(h: HandlersChain)
    requires h != []
    ensures
      var row := ParamRow(0x1_0000);
      var regs := [Registration(row, h)];
      Build(regs).Ok? && MaxParams(regs) == 0 && |GetValue(regs, row).params| == 0x1_0000
  {
    var row := ParamRow(0x1_0000);
    var regs := [Registration(row, h)];
    ParamRowWildcards(0x1_0000);
    ParamRowInserts(Bump(NEW_ROOT), 0x1_0000, row, h);
    assert regs[..0] == [];
    assert AddRoute(NEW_ROOT, regs[0]).Ok?;
    FindsItself(regs, 0);
  }
}
