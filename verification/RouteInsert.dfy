/** Registering a route: what `addRoute`, `insertChild` and `incrementChildPrio` do to the tree as
    functions on values, and the proof that a registration that does not panic adds exactly the new
    route and keeps the shape of the tree. */
module RouteInsert {
  import opened RoutePatterns
  import opened RouteTree

  datatype Result = Panic | Ok(node: Node)

  // ---------------------------------------------------------------- the operations

  function Lcp(a: string, b: string): (i: nat)
    ensures i <= |a| && i <= |b| && a[..i] == b[..i]
    ensures i < |a| && i < |b| ==> a[i] != b[i]
  {
    if a == "" || b == "" || a[0] != b[0] then 0 else 1 + Lcp(a[1..], b[1..])
  }

  datatype Wildcard = NoWildcard | Wildcard(text: string, start: nat, valid: bool)

  function FirstWild(path: string): (i: nat)
    ensures i <= |path| && Literal(path[..i]) && (i < |path| ==> path[i] == ':' || path[i] == '*')
  {
    if path == "" || path[0] == ':' || path[0] == '*' then 0 else 1 + FirstWild(path[1..])
  }

  /** The first wildcard of a path, up to the next '/', and whether its name is free of wildcard characters. */
  function FindWildcard(path: string): Wildcard {
    var i := FirstWild(path);
    if i == |path| then NoWildcard
    else
      var text := path[i..i + 1 + SegmentEnd(path[i + 1..])];
      Wildcard(text, i, Literal(text[1..]))
  }

  function NewNode(fullPath: string, priority: nat): Node {
    Node("", "", false, Static, priority, [], [], fullPath)
  }

  /** The parameter node, with everything under it, for a path that starts with the wildcard `w`. */
  function ParamChild(w: string, path: string, full: string, h: HandlersChain): Result
    requires w != "" && w <= path
    decreases |path|, 0
  {
    var child := Node(w, "", false, ParamNode, 1, [], [], full);
    if |w| < |path| then
      match InsertChild(NewNode(full, 1), path[|w|..], full, h)
      case Panic => Panic
      case Ok(g) => Ok(child.(children := [g]))
    else Ok(child.(handlers := h))
  }

  function InsertChild(n: Node, path: string, full: string, h: HandlersChain): Result
    decreases |path|, 1
  {
    match FindWildcard(path)
    case NoWildcard => Ok(n.(path := path, handlers := h, fullPath := full))
    case Wildcard(w, i, valid) =>
      if !valid || |w| < 2 || n.children != [] then Panic
      else if w[0] == ':' then
        match ParamChild(w, path[i..], full, h)
        case Panic => Panic
        case Ok(child) => Ok(n.(path := if i > 0 then path[..i] else n.path, wildChild := true, children := [child]))
      else if i + |w| != |path| || (n.path != "" && n.path[|n.path| - 1] == '/') || i == 0 || path[i - 1] != '/' then Panic
      else
        var leaf := Node(path[i - 1..], "", false, CatchAll, 1, [], h, full);
        var inner := Node("", "", true, CatchAll, 1, [leaf], [], full);
        Ok(n.(path := path[..i - 1], children := [inner], indices := "/"))
  }

  /** Where a child with priority `prio` at `pos` ends up when it passes all lighter ones before it. */
  function NewPos(cs: seq<Node>, pos: nat, prio: nat): (p: nat)
    requires pos <= |cs|
    ensures p <= pos
    ensures forall i :: p <= i < pos ==> cs[i].priority < prio
    ensures p > 0 ==> cs[p - 1].priority >= prio
  {
    if pos > 0 && cs[pos - 1].priority < prio then NewPos(cs, pos - 1, prio) else pos
  }

  function Move<X>(s: seq<X>, from: nat, to: nat): (r: seq<X>)
    requires to <= from < |s|
    ensures |r| == |s|
    ensures forall i :: 0 <= i < |r| ==> r[i] == s[if i < to || i > from then i else if i == to then from else i - 1]
  {
    s[..to] + [s[from]] + s[to..from] + s[from + 1..]
  }

  /** `incrementChildPrio(pos)` followed by the update `c` of the child that was moved. */
  function Raise(n: Node, pos: nat, c: Node): Node
    requires pos < |n.children| == |n.indices|
  {
    var p := NewPos(n.children, pos, n.children[pos].priority + 1);
    n.(children := Move(n.children[pos := c], pos, p), indices := Move(n.indices, pos, p))
  }

  function Bump(n: Node): Node {
    n.(priority := n.priority + 1)
  }

  /** "Otherwise insert it": no existing child starts with the first byte of `path`. */
  function Attach(n: Node, path: string, full: string, h: HandlersChain): Result
    requires path != "" && |n.children| == |n.indices|
  {
    var c := path[0];
    if c != ':' && c != '*' then
      match InsertChild(NewNode(full, 1), path, full, h)
      case Panic => Panic
      case Ok(child) =>
        Ok(Raise(n.(indices := n.indices + [c], children := n.children + [NewNode(full, 0)]), |n.children|, child))
    else InsertChild(n, path, full, h)
  }

  /** Splits the edge `n.path` after `i` bytes; `n` has been counted once more already. */
  function Split(n: Node, i: nat, prefixFull: string): Node
    requires i < |n.path| && n.priority >= 1
  {
    var child := n.(path := n.path[i..], nType := Static, priority := n.priority - 1);
    n.(children := [child], indices := [n.path[i]], path := n.path[..i], handlers := [], wildChild := false, fullPath := prefixFull)
  }

  function SetHandlers(n: Node, full: string, h: HandlersChain): Result {
    if n.handlers != [] then Panic else Ok(n.(handlers := h, fullPath := full))
  }

  /** The new path agrees with wildcard node `c`: same name, then '/' or the end. */
  predicate Continues(c: Node, path: string) {
    && c.path <= path && c.nType != CatchAll && (|c.path| == |path| || path[|c.path|] == '/')
  }

  ghost predicate NodeOk(n: Node) {
    StaticOk(n) || ParamOk(n) || CatchAllOk(n)
  }

  /** The loop of `addRoute` from node `n`, including the increment of its priority. `done` bytes of
      `full` lie above `n`. After a split no child is followed: the only one starts with another byte. */
  ghost function Walk(n: Node, path: string, full: string, done: nat, h: HandlersChain): Result
    requires NodeOk(n) && path != "" && done + |path| <= |full|
    requires ParamOk(n) ==> Continues(n, path)
    decreases n, 1
  {
    var i := Lcp(path, n.path);
    if i < |n.path| then
      var m := Split(Bump(n), i, full[..done + i]);
      if i < |path| then Attach(m, path[i..], full, h) else SetHandlers(m, full, h)
    else if i == |path| then SetHandlers(Bump(n), full, h)
    else Follow(n, path, full, done, h)
  }

  /** The rest of a round when all of `n.path` is a prefix of `path`: go on in a child, or attach a new one. */
  ghost function Follow(n: Node, path: string, full: string, done: nat, h: HandlersChain): Result
    requires NodeOk(n) && |n.path| < |path| && done + |path| <= |full|
    requires ParamOk(n) ==> Continues(n, path)
    decreases n, 0
  {
    var rest := path[|n.path|..];
    if n.wildChild then
      var c := n.children[0];
      if !Continues(c, rest) then Panic
      else
        assert ParamOk(c);
        OnlyChild(n, Walk(c, rest, full, done + |n.path|, h))
    else if n.nType == ParamNode && rest[0] == '/' && |n.children| == 1 then
      assert StaticOk(n.children[0]);
      OnlyChild(n, Walk(n.children[0], rest, full, done + |n.path|, h))
    else
      var k := IndexOf(n.indices, rest[0]);
      if k < |n.indices| then
        assert ChildOk(n.children[k], n.indices[k]);
        RaisedWith(Bump(n), k, Walk(n.children[k], rest, full, done + |n.path|, h))
      else Attach(Bump(n), rest, full, h)
  }

  /** `n`, counted up, with its only child replaced. */
  function OnlyChild(n: Node, r: Result): Result {
    match r
    case Panic => Panic
    case Ok(x) => Ok(Bump(n).(children := [x]))
  }

  function RaisedWith(n: Node, k: nat, r: Result): Result
    requires k < |n.children| == |n.indices|
  {
    match r
    case Panic => Panic
    case Ok(x) => Ok(Raise(n, k, x))
  }

  // ---------------------------------------------------------------- a new branch holds one route

  /** A node as it is created: nothing under it, one route about to be put into it. */
  ghost predicate Fresh(n: Node) {
    && n.path == "" && n.indices == "" && !n.wildChild && (n.nType == Static || n.nType == Root)
    && n.priority == 1 && n.children == [] && n.handlers == []
  }

  lemma {:induction false} RoutesOfOne(c: Node)
    ensures RoutesOfAll([c]) == Routes(c)
  {
    assert RoutesOfAll([c]) == Routes(c) + RoutesOfAll([c][1..]);
  }

  /** A node with a single child and no handlers holds the child's routes. */
  lemma {:induction false} OnlyChildRoutes(n: Node, r: Route)
    requires n.handlers == [] && |n.children| == 1 && Routes(n.children[0]) == [r]
    ensures Routes(n) == [r.(pattern := n.path + r.pattern)]
  {
    RoutesOfOne(n.children[0]);
    assert n.children == [n.children[0]];
    assert Below(n) == [r];
  }

  lemma {:induction false} LeafRoutes(n: Node)
    requires n.handlers != [] && n.children == []
    ensures Routes(n) == [Route(n.path, n.handlers, n.fullPath)]
  {
    assert n.path + "" == n.path;
    assert Below(n) == [Route("", n.handlers, n.fullPath)];
  }

  lemma {:induction false} WildcardText(path: string)
    requires FindWildcard(path).Wildcard?
    ensures
      var Wildcard(w, i, valid) := FindWildcard(path);
      && i < |path| && w <= path[i..] && w != "" && '/' !in w[1..]
      && (|w| < |path| - i ==> path[i..][|w|] == '/')
      && Literal(path[..i]) && (w[0] == ':' || w[0] == '*') && (valid ==> Literal(w[1..]))
  {
  }

  lemma {:induction false} ParamChildOk(w: string, path: string, full: string, h: HandlersChain)
    requires |w| >= 2 && w <= path && w[0] == ':' && '/' !in w[1..] && Literal(w[1..])
    requires |w| < |path| ==> path[|w|] == '/'
    requires h != [] && ParamChild(w, path, full, h).Ok?
    ensures
      var c := ParamChild(w, path, full, h).node;
      ParamOk(c) && c.priority == 1 && Routes(c) == [Route(path, h, full)]
    decreases |path|, 0
  {
    hide InsertChild, StaticOk;
    var c := ParamChild(w, path, full, h).node;
    assert '/' !in w;
    if |w| < |path| {
      InsertChildOk(NewNode(full, 1), path[|w|..], full, h);
      assert path == w + path[|w|..];
      OnlyChildRoutes(c, Route(path[|w|..], h, full));
    } else {
      assert w == path;
      LeafRoutes(c);
    }
  }

  /** `m` holds the one route `path`. */
  ghost predicate HoldsOne(n: Node, m: Node, path: string, full: string, h: HandlersChain)
    requires path != ""
  {
    StaticOk(m) && Starts(m, path[0]) && m.nType == n.nType && m.priority == 1 && Routes(m) == [Route(path, h, full)]
  }

  /** Inserting into a fresh node, for a path that starts with a literal byte. */
  lemma {:induction false} InsertChildOk(n: Node, path: string, full: string, h: HandlersChain)
    requires Fresh(n) && path != "" && path[0] != ':' && path[0] != '*' && h != []
    requires InsertChild(n, path, full, h).Ok?
    ensures HoldsOne(n, InsertChild(n, path, full, h).node, path, full, h)
    decreases |path|, 2
  {
    hide InsertChild, HoldsOne;
    if FindWildcard(path).NoWildcard? {
      InsertLeafOk(n, path, full, h);
    } else {
      WildcardText(path);
      if FindWildcard(path).text[0] == ':' {
        InsertParamOk(n, path, full, h);
      } else {
        InsertCatchAllOk(n, path, full, h);
      }
    }
  }

  lemma {:induction false} InsertLeafOk(n: Node, path: string, full: string, h: HandlersChain)
    requires Fresh(n) && path != "" && h != [] && FindWildcard(path).NoWildcard?
    ensures InsertChild(n, path, full, h).Ok? && HoldsOne(n, InsertChild(n, path, full, h).node, path, full, h)
  {
    LeafRoutes(InsertChild(n, path, full, h).node);
  }

  lemma {:induction false} InsertParamOk(n: Node, path: string, full: string, h: HandlersChain)
    requires Fresh(n) && path != "" && h != [] && InsertChild(n, path, full, h).Ok?
    requires FindWildcard(path).Wildcard? && FindWildcard(path).text[..1] == ":" && FindWildcard(path).start > 0
    ensures HoldsOne(n, InsertChild(n, path, full, h).node, path, full, h)
    decreases |path|, 1
  {
    var m := InsertChild(n, path, full, h).node;
    var Wildcard(w, i, valid) := FindWildcard(path);
    WildcardText(path);
    StaticShape(m);
    hide ParamChild, StaticOk, ParamOk, FindWildcard;
    ParamChildOk(w, path[i..], full, h);
    assert path == path[..i] + path[i..];
    OnlyChildRoutes(m, Route(path[i..], h, full));
  }

  lemma {:induction false} InsertCatchAllOk(n: Node, path: string, full: string, h: HandlersChain)
    requires Fresh(n) && path != "" && h != [] && InsertChild(n, path, full, h).Ok?
    requires FindWildcard(path).Wildcard? && FindWildcard(path).text[..1] == "*" && FindWildcard(path).start > 0
    ensures HoldsOne(n, InsertChild(n, path, full, h).node, path, full, h)
  {
    var m := InsertChild(n, path, full, h).node;
    var Wildcard(w, i, valid) := FindWildcard(path);
    WildcardText(path);
    var inner := m.children[0];
    var leaf := inner.children[0];
    assert leaf.path == "/" + w && leaf.path[2..] == w[1..];
    assert CatchAllLeaf(leaf) && CatchAllOk(inner);
    CatchAllRoutes(inner);
    OnlyChildRoutes(m, Route(leaf.path, h, full));
    assert path[..i - 1] + path[i - 1..] == path;
    assert Literal(m.path) by { assert m.path <= path[..i]; }
    assert ChildOk(inner, '/');
  }

  // ---------------------------------------------------------------- one more route

  /** `after` holds the routes of `before` and one more, `x`. */
  ghost predicate Grows(before: seq<Route>, after: seq<Route>, x: Route) {
    |after| == |before| + 1 && forall r :: r in after <==> r in before || r == x
  }

  lemma {:induction false} GrowsPrefixed(p: string, before: seq<Route>, after: seq<Route>, x: Route)
    requires Grows(before, after, x)
    ensures Grows(Prefixed(p, before), Prefixed(p, after), x.(pattern := p + x.pattern))
  {
    forall r
      ensures r in Prefixed(p, after) <==> r in Prefixed(p, before) || r == x.(pattern := p + x.pattern)
    {
      PrefixedMember(p, before, r);
      PrefixedMember(p, after, r);
      assert r == x.(pattern := p + x.pattern) <==> p <= r.pattern && r.(pattern := r.pattern[|p|..]) == x;
    }
  }

  lemma {:induction false} RoutesOfAllConcat(a: seq<Node>, b: seq<Node>)
    ensures RoutesOfAll(a + b) == RoutesOfAll(a) + RoutesOfAll(b)
  {
    if a == [] {
      assert a + b == b;
    } else {
      assert (a + b)[1..] == a[1..] + b;
      RoutesOfAllConcat(a[1..], b);
    }
  }

  /** Moving and replacing one child replaces its routes and nothing else. */
  lemma {:induction false} MovedRoutes(cs: seq<Node>, from: nat, to: nat, c: Node, x: Route)
    requires to <= from < |cs| && Grows(Routes(cs[from]), Routes(c), x)
    ensures Grows(RoutesOfAll(cs), RoutesOfAll(Move(cs[from := c], from, to)), x)
  {
    var a, b, d := cs[..to], cs[to..from], cs[from + 1..];
    var ds := cs[from := c];
    assert ds[..to] == a && ds[to..from] == b && ds[from + 1..] == d;
    assert cs == a + b + [cs[from]] + d;
    assert Move(ds, from, to) == a + [c] + b + d;
    RoutesOfAllConcat(a + b + [cs[from]], d);
    RoutesOfAllConcat(a + b, [cs[from]]);
    RoutesOfAllConcat(a, b);
    RoutesOfAllConcat(a + [c] + b, d);
    RoutesOfAllConcat(a + [c], b);
    RoutesOfAllConcat(a, [c]);
    RoutesOfOne(c);
    RoutesOfOne(cs[from]);
  }

  lemma {:induction false} RaiseSorts(cs: seq<Node>, pos: nat, c: Node)
    requires Sorted(cs) && pos < |cs| && c.priority == cs[pos].priority + 1
    ensures Sorted(Move(cs[pos := c], pos, NewPos(cs, pos, c.priority)))
  {
    var p := NewPos(cs, pos, c.priority);
    var ds := Move(cs[pos := c], pos, p);
    forall i, j | 0 <= i < j < |ds|
      ensures ds[i].priority >= ds[j].priority
    {
      var i', j' := if i < p || i > pos then i else i - 1, if j < p || j > pos then j else j - 1;
      assert i != p ==> ds[i] == cs[i'];
      assert j != p ==> ds[j] == cs[j'];
    }
  }

  lemma {:induction false} MoveAligned(cs: seq<Node>, indices: string, from: nat, to: nat)
    requires to <= from < |cs| == |indices| && DistinctChars(indices)
    requires forall i :: 0 <= i < |cs| ==> ChildOk(cs[i], indices[i])
    ensures DistinctChars(Move(indices, from, to))
    ensures forall i :: 0 <= i < |cs| ==> ChildOk(Move(cs, from, to)[i], Move(indices, from, to)[i])
  {
    hide ChildOk;
    forall i | 0 <= i < |cs|
      ensures ChildOk(Move(cs, from, to)[i], Move(indices, from, to)[i])
    {
      var k := if i < to || i > from then i else if i == to then from else i - 1;
      assert ChildOk(cs[k], indices[k]);
    }
  }

  /** Raising a child that has gained one route keeps children sorted and aligned with their index bytes. */
  lemma {:induction false} RaiseKeeps(n: Node, pos: nat, c: Node)
    requires ChildrenOk(n.children, n.indices) && pos < |n.children|
    requires ChildOk(c, n.indices[pos]) && c.priority == n.children[pos].priority + 1
    ensures var m := Raise(n, pos, c); ChildrenOk(m.children, m.indices)
  {
    hide ChildOk;
    RaiseSorts(n.children, pos, c);
    hide Sorted;
    MoveAligned(n.children[pos := c], n.indices, pos, NewPos(n.children, pos, c.priority));
  }

  lemma {:induction false} RaiseOk(n: Node, k: nat, c: Node, x: Route)
    requires StaticOk(n) && !n.wildChild && n.path != "" && k < |n.children|
    requires ChildOk(c, n.indices[k]) && c.priority == n.children[k].priority + 1
    requires Grows(Routes(n.children[k]), Routes(c), x)
    ensures
      var m := Raise(Bump(n), k, c);
      StaticOk(m) && m.path == n.path && Grows(Routes(n), Routes(m), x.(pattern := n.path + x.pattern))
  {
    StaticShape(n);
    assert |n.indices| == |n.children|;
    hide ChildrenOk, StaticOk, ChildOk;
    var m := Raise(Bump(n), k, c);
    StaticShape(m);
    RaiseKeeps(Bump(n), k, c);
    var p := NewPos(n.children, k, n.children[k].priority + 1);
    MovedRoutes(n.children, k, p, c, x);
    GrowsPrefixed(n.path, Below(n), Below(m), x);
  }

  lemma {:induction false} PrefixedTwice(a: string, b: string, rs: seq<Route>)
    ensures Prefixed(a, Prefixed(b, rs)) == Prefixed(a + b, rs)
  {
    assert forall i :: 0 <= i < |rs| ==> a + (b + rs[i].pattern) == a + b + rs[i].pattern;
  }

  lemma {:induction false} SplitRoutes(n: Node, i: nat, f: string)
    requires i < |n.path|
    ensures Routes(Split(Bump(n), i, f)) == Routes(n)
    ensures Routes(Split(Bump(n), i, f).children[0]) == Prefixed(n.path[i..], Below(n))
  {
    var m := Split(Bump(n), i, f);
    RoutesOfOne(m.children[0]);
    assert Below(m) == Routes(m.children[0]);
    PrefixedTwice(n.path[..i], n.path[i..], Below(n));
    assert n.path[..i] + n.path[i..] == n.path;
  }

  lemma {:induction false} SplitOk(n: Node, i: nat, f: string)
    requires StaticOk(n) && 0 < i < |n.path|
    ensures
      var m := Split(Bump(n), i, f).(priority := n.priority);
      StaticOk(m) && Routes(m) == Routes(n) && m.nType == n.nType
  {
    var m := Split(Bump(n), i, f).(priority := n.priority);
    var child := m.children[0];
    SplitRoutes(n, i, f);
    assert Below(m) == Below(Split(Bump(n), i, f));
    StaticShape(n);
    StaticShape(child);
    StaticShape(m);
    SingleChildOk(child);
    hide StaticOk, ChildrenOk, Below;
    assert Literal(n.path[i..]) && Literal(n.path[..i]);
  }

  lemma {:induction false} SingleChildOk(c: Node)
    requires c.path != ""
    ensures StaticOk(c) && c.nType == Static ==> ChildrenOk([c], [c.path[0]])
  {
  }

  lemma {:induction false} AttachLiteralOk(n: Node, path: string, full: string, h: HandlersChain)
    requires StaticOk(n) && !n.wildChild && n.path != ""
    requires path != "" && path[0] !in n.indices && path[0] != ':' && path[0] != '*' && h != []
    requires Attach(Bump(n), path, full, h).Ok?
    ensures
      var m := Attach(Bump(n), path, full, h).node;
      StaticOk(m) && m.path == n.path && m.nType == n.nType && Grows(Routes(n), Routes(m), Route(n.path + path, h, full))
  {
    StaticShape(n);
    assert |n.indices| == |n.children|;
    hide InsertChild, StaticOk, ChildrenOk, ChildOk;
    var m := Attach(Bump(n), path, full, h).node;
    StaticShape(m);
    InsertChildOk(NewNode(full, 1), path, full, h);
    var child := InsertChild(NewNode(full, 1), path, full, h).node;
    PrioritiesPositive(n.children, n.indices);
    assert m.children == n.children + [child] && m.indices == n.indices + [path[0]];
    AppendChildOk(n.children, n.indices, child, path[0]);
    RoutesOfAllConcat(n.children, [child]);
    RoutesOfOne(child);
    GrowsPrefixed(n.path, Below(n), Below(m), Route(path, h, full));
  }

  lemma {:induction false} ChildPositive(n: Node, c: char)
    requires ChildOk(n, c)
    ensures n.priority >= 1
  {
    if !CatchAllOk(n) { assert StaticOk(n); }
  }

  lemma {:induction false} PrioritiesPositive(cs: seq<Node>, indices: string)
    requires ChildrenOk(cs, indices)
    ensures forall i :: 0 <= i < |cs| ==> cs[i].priority >= 1
  {
    forall i | 0 <= i < |cs|
      ensures cs[i].priority >= 1
    {
      ChildPositive(cs[i], indices[i]);
    }
  }

  lemma {:induction false} AppendChildOk(cs: seq<Node>, indices: string, child: Node, c: char)
    requires ChildrenOk(cs, indices) && c !in indices
    requires child.nType == Static && StaticOk(child) && Starts(child, c) && child.priority == 1
    ensures ChildrenOk(cs + [child], indices + [c])
  {
    PrioritiesPositive(cs, indices);
    assert ChildOk(child, c);
    hide ChildOk;
  }

  lemma {:induction false} AttachWildOk(n: Node, path: string, full: string, h: HandlersChain)
    requires StaticOk(n) && !n.wildChild && n.path != ""
    requires path != "" && (path[0] == ':' || path[0] == '*') && h != []
    requires Attach(Bump(n), path, full, h).Ok?
    ensures
      var m := Attach(Bump(n), path, full, h).node;
      StaticOk(m) && m.path == n.path && m.nType == n.nType && Grows(Routes(n), Routes(m), Route(n.path + path, h, full))
  {
    var m := Attach(Bump(n), path, full, h).node;
    var w := FindWildcard(path).text;
    WildcardText(path);
    assert FirstWild(path) == 0 && path[0..] == path && n.children == [];
    ParamChildOk(w, path, full, h);
    var child := m.children[0];
    hide ParamOk, ParamChild;
    assert Below(m) == Own(n) + [Route(path, h, full)] by { RoutesOfOne(child); }
    assert Below(n) == Own(n);
    GrowsPrefixed(n.path, Below(n), Below(m), Route(path, h, full));
  }

  lemma {:induction false} AttachParamOk(n: Node, path: string, full: string, h: HandlersChain)
    requires ParamOk(n) && n.children == [] && path != "" && path[0] == '/' && h != []
    requires Attach(Bump(n), path, full, h).Ok?
    ensures
      var m := Attach(Bump(n), path, full, h).node;
      ParamOk(m) && m.path == n.path && Grows(Routes(n), Routes(m), Route(n.path + path, h, full))
  {
    hide InsertChild;
    var m := Attach(Bump(n), path, full, h).node;
    InsertChildOk(NewNode(full, 1), path, full, h);
    var child := InsertChild(NewNode(full, 1), path, full, h).node;
    hide StaticOk;
    assert m.children == [child] && m.indices == "/";
    assert Below(m) == Own(n) + [Route(path, h, full)] by { RoutesOfOne(child); }
    assert Below(n) == Own(n);
    GrowsPrefixed(n.path, Below(n), Below(m), Route(path, h, full));
  }

  lemma {:induction false} OwnRouteGrows(n: Node, full: string, h: HandlersChain)
    requires h != [] && n.handlers == []
    ensures Grows(Routes(n), Routes(Bump(n).(handlers := h, fullPath := full)), Route(n.path, h, full))
  {
    var m := Bump(n).(handlers := h, fullPath := full);
    assert Below(m) == [Route("", h, full)] + Below(n);
    assert n.path + "" == n.path;
    GrowsPrefixed(n.path, Below(n), Below(m), Route("", h, full));
  }

  lemma {:induction false} SetHandlersOk(n: Node, full: string, h: HandlersChain)
    requires (StaticOk(n) || ParamOk(n)) && n.path != "" && h != [] && n.handlers == []
    ensures
      var m := Bump(n).(handlers := h, fullPath := full);
      && (StaticOk(n) ==> StaticOk(m)) && (ParamOk(n) ==> ParamOk(m))
      && Grows(Routes(n), Routes(m), Route(n.path, h, full))
  {
    var m := Bump(n).(handlers := h, fullPath := full);
    OwnRouteGrows(n, full, h);
    StaticShape(n);
    StaticShape(m);
    hide StaticOk, ChildrenOk, Routes, Grows;
    assert |Routes(m)| == |Routes(n)| + 1 by { GrowsLength(Routes(n), Routes(m), Route(n.path, h, full)); }
  }

  lemma {:induction false} GrowsLength(before: seq<Route>, after: seq<Route>, x: Route)
    requires Grows(before, after, x)
    ensures |after| == |before| + 1
  {
  }

  // ---------------------------------------------------------------- the walk

  /** A registration from node `n` that does not panic adds exactly the new route. */
  ghost predicate Registers(n: Node, m: Node, path: string, full: string, h: HandlersChain)
    requires path != ""
  {
    && m.nType == n.nType && m.priority == n.priority + 1
    && (StaticOk(n) ==> StaticOk(m) && Starts(m, path[0]))
    && (ParamOk(n) ==> ParamOk(m))
    && Grows(Routes(n), Routes(m), Route(path, h, full))
  }

  lemma {:induction false} WalkCatchAll(n: Node, path: string, full: string, done: nat, h: HandlersChain)
    requires CatchAllOk(n) && path != "" && done + |path| <= |full|
    ensures Walk(n, path, full, done, h) == Panic
  {
    assert path[0..] == path;
  }

  /** A wildcard cannot be put beside existing children, nor a catch-all without its '/'. */
  lemma {:induction false} WildNeedsLeaf(n: Node, path: string, full: string, h: HandlersChain)
    requires path != "" && |n.children| == |n.indices| && n.children != []
    ensures path[0] == ':' || path[0] == '*' ==> Attach(n, path, full, h) == Panic
  {
    hide ParamChild;
  }

  lemma {:induction false} AttachRegisters(n: Node, rest: string, full: string, h: HandlersChain)
    requires StaticOk(n) && !n.wildChild && n.path != "" && rest != "" && rest[0] !in n.indices && h != []
    requires |n.indices| == |n.children| && Attach(Bump(n), rest, full, h).Ok?
    ensures Registers(n, Attach(Bump(n), rest, full, h).node, n.path + rest, full, h)
  {
    hide Grows, Attach, ParamOk;
    if rest[0] == ':' || rest[0] == '*' {
      AttachWildOk(n, rest, full, h);
    } else {
      AttachLiteralOk(n, rest, full, h);
    }
    var m := Attach(Bump(n), rest, full, h).node;
    StaticCounted(n);
    StaticCounted(m);
    GrowsLength(Routes(n), Routes(m), Route(n.path + rest, h, full));
    StaticIsNotParam(n);
  }

  lemma {:induction false} StaticCounted(n: Node)
    requires StaticOk(n)
    ensures n.priority == |Routes(n)|
  {
  }

  lemma {:induction false} StaticIsNotParam(n: Node)
    ensures !(StaticOk(n) && ParamOk(n)) && !(StaticOk(n) && CatchAllOk(n)) && !(ParamOk(n) && CatchAllOk(n))
  {
  }

  /** The walk ends at `n` itself. */
  lemma {:induction false} SetRegisters(n: Node, full: string, h: HandlersChain)
    requires (StaticOk(n) || ParamOk(n)) && n.path != "" && h != [] && SetHandlers(Bump(n), full, h).Ok?
    ensures Registers(n, SetHandlers(Bump(n), full, h).node, n.path, full, h)
  {
    hide StaticOk, ParamOk;
    SetHandlersOk(n, full, h);
  }

  lemma {:induction false} WalkSplit(n: Node, path: string, full: string, done: nat, h: HandlersChain)
    requires StaticOk(n) && path != "" && Starts(n, path[0]) && done + |path| <= |full| && h != []
    requires Lcp(path, n.path) < |n.path| && Walk(n, path, full, done, h).Ok?
    ensures Registers(n, Walk(n, path, full, done, h).node, path, full, h)
  {
    hide StaticOk, ParamOk, Attach, SetHandlers, Grows;
    var i := Lcp(path, n.path);
    assert i > 0 by { if i == 0 { assert path[0] == n.path[0]; } }
    var m := Split(Bump(n), i, full[..done + i]);
    var m0 := m.(priority := n.priority);
    assert m == Bump(m0);
    SplitOk(n, i, full[..done + i]);
    StaticIsNotParam(n);
    assert path == n.path[..i] + path[i..];
    if i < |path| {
      WildNeedsLeaf(m, path[i..], full, h);
      AttachRegisters(m0, path[i..], full, h);
    } else {
      assert path == m0.path;
      SetRegisters(m0, full, h);
    }
  }

  /** Following a child that exists. */
  lemma {:induction false} WalkInto(n: Node, k: nat, x: Node, path: string, full: string, h: HandlersChain)
    requires StaticOk(n) && !n.wildChild && n.path != "" && k < |n.children| && |n.path| < |path| && n.path <= path
    requires n.children[k].nType == Static && StaticOk(n.children[k]) && path[|n.path|] == n.indices[k]
    requires Registers(n.children[k], x, path[|n.path|..], full, h)
    ensures Registers(n, Raise(Bump(n), k, x), path, full, h)
  {
    hide Grows;
    assert ChildOk(x, n.indices[k]);
    RaiseOk(n, k, x, Route(path[|n.path|..], h, full));
    assert path == n.path + path[|n.path|..];
    var m := Raise(Bump(n), k, x);
    assert m.path == n.path && path[0] == n.path[0];
  }

  /** Following the only child of a node: a parameter, or what comes after a parameter. */
  lemma {:induction false} WalkOnlyChild(n: Node, x: Node, path: string, full: string, h: HandlersChain)
    requires |n.children| == 1 && n.path <= path && |n.path| < |path|
    requires (StaticOk(n) && n.wildChild && n.path != "" && ParamOk(n.children[0])) || ParamOk(n)
    requires ParamOk(n) ==> StaticOk(n.children[0]) && Starts(n.children[0], '/') && path[|n.path|] == '/'
    requires Registers(n.children[0], x, path[|n.path|..], full, h)
    ensures Registers(n, Bump(n).(children := [x]), path, full, h)
  {
    var m := Bump(n).(children := [x]);
    var y := Route(path[|n.path|..], h, full);
    RoutesOfOne(x);
    RoutesOfOne(n.children[0]);
    assert n.children == [n.children[0]];
    GrowsPrefixed(n.path, Below(n), Below(m), y);
    assert path == n.path + y.pattern;
    StaticShape(n);
    StaticShape(m);
  }

  /** `addRoute` from any node of a well-formed tree. */
  lemma {:induction false} WalkOk(n: Node, path: string, full: string, done: nat, h: HandlersChain)
    requires NodeOk(n) && path != "" && done + |path| <= |full| && h != []
    requires (ParamOk(n) ==> Continues(n, path)) && (StaticOk(n) ==> Starts(n, path[0]))
    requires Walk(n, path, full, done, h).Ok?
    ensures Registers(n, Walk(n, path, full, done, h).node, path, full, h)
    decreases n, 3
  {
    hide Registers, Walk, StaticOk, ParamOk, CatchAllOk;
    StaticIsNotParam(n);
    var i := Lcp(path, n.path);
    if CatchAllOk(n) {
      WalkCatchAll(n, path, full, done, h);
    } else if ParamOk(n) {
      WalkParam(n, path, full, done, h);
    } else if i < |n.path| {
      WalkSplit(n, path, full, done, h);
    } else {
      WalkStatic(n, path, full, done, h);
    }
  }

  lemma {:induction false} WalkHolder(n: Node, path: string, full: string, done: nat, h: HandlersChain)
    requires StaticOk(n) && n.path == "" && path != "" && path[0] == '/' && done + |path| <= |full|
    ensures Walk(n, path, full, done, h) == Panic
  {
    hide Counted, Attach, Raise;
    var c := n.children[0];
    assert ChildOk(c, n.indices[0]) && CatchAllOk(c);
    assert n.indices[0] == '/';
    assert path[0..] == path;
    WalkCatchAll(c, path, full, done, h);
  }

  lemma {:induction false} WalkParam(n: Node, path: string, full: string, done: nat, h: HandlersChain)
    requires ParamOk(n) && path != "" && done + |path| <= |full| && h != [] && Continues(n, path)
    requires Walk(n, path, full, done, h).Ok?
    ensures Registers(n, Walk(n, path, full, done, h).node, path, full, h)
    decreases n, 0
  {
    hide Counted, Attach, Raise, Registers;
    LcpOfPrefix(path, n.path);
    var rest := path[|n.path|..];
    assert path == n.path + rest;
    if rest == "" {
      assert path == n.path;
      SetRegisters(n, full, h);
    } else if |n.children| == 1 {
      assert StaticOk(n.children[0]);
      WalkOk(n.children[0], rest, full, done + |n.path|, h);
      WalkOnlyChild(n, Walk(n.children[0], rest, full, done + |n.path|, h).node, path, full, h);
    } else {
      ParamAttachRegisters(n, rest, full, h);
    }
  }

  lemma {:induction false} ParamAttachRegisters(n: Node, rest: string, full: string, h: HandlersChain)
    requires ParamOk(n) && n.children == [] && rest != "" && rest[0] == '/' && h != []
    requires Attach(Bump(n), rest, full, h).Ok?
    ensures Registers(n, Attach(Bump(n), rest, full, h).node, n.path + rest, full, h)
  {
    hide Grows, Attach, StaticOk;
    AttachParamOk(n, rest, full, h);
    StaticIsNotParam(n);
    GrowsLength(Routes(n), Routes(Attach(Bump(n), rest, full, h).node), Route(n.path + rest, h, full));
  }

  lemma {:induction false} LcpOfPrefix(path: string, p: string)
    requires p <= path
    ensures Lcp(path, p) == |p|
  {
  }

  /** The walk through a static node whose whole path is a prefix of the new one. */
  lemma {:induction false} WalkStatic(n: Node, path: string, full: string, done: nat, h: HandlersChain)
    requires StaticOk(n) && path != "" && Starts(n, path[0]) && done + |path| <= |full| && h != []
    requires Lcp(path, n.path) == |n.path| && Walk(n, path, full, done, h).Ok?
    ensures Registers(n, Walk(n, path, full, done, h).node, path, full, h)
    decreases n, 2
  {
    hide Registers, Attach, Raise, Counted, ChildOk, ParamOk;
    if n.path == "" {
      WalkHolder(n, path, full, done, h);
    } else if |path| == |n.path| {
      assert path == n.path;
      SetRegisters(n, full, h);
    } else if n.wildChild {
      WalkWild(n, path, full, done, h);
    } else {
      WalkPlain(n, path, full, done, h);
    }
  }

  lemma {:induction false} WalkWild(n: Node, path: string, full: string, done: nat, h: HandlersChain)
    requires StaticOk(n) && done + |path| <= |full| && h != [] && n.wildChild
    requires n.path != "" && |n.path| < |path| && Lcp(path, n.path) == |n.path| && Walk(n, path, full, done, h).Ok?
    ensures Registers(n, Walk(n, path, full, done, h).node, path, full, h)
    decreases n, 0
  {
    hide Registers, Attach, Raise, Counted, Split, SetHandlers;
    StaticIsNotParam(n);
    var c, rest := n.children[0], path[|n.path|..];
    StaticIsNotParam(c);
    WalkOk(c, rest, full, done + |n.path|, h);
    WalkOnlyChild(n, Walk(c, rest, full, done + |n.path|, h).node, path, full, h);
  }

  lemma {:induction false} WalkPlain(n: Node, path: string, full: string, done: nat, h: HandlersChain)
    requires StaticOk(n) && done + |path| <= |full| && h != [] && !n.wildChild
    requires n.path != "" && |n.path| < |path| && Lcp(path, n.path) == |n.path| && Walk(n, path, full, done, h).Ok?
    ensures Registers(n, Walk(n, path, full, done, h).node, path, full, h)
    decreases n, 1
  {
    hide Registers, Attach, Raise, Counted, Split, SetHandlers;
    var rest := path[|n.path|..];
    var k := IndexOf(n.indices, rest[0]);
    if k < |n.indices| {
      IndexedChild(n, k);
      WalkIndexed(n, k, path, full, done, h);
    } else {
      assert path == n.path + rest;
      AttachRegisters(n, rest, full, h);
    }
  }

  lemma {:induction false} IndexedChild(n: Node, k: nat)
    requires StaticOk(n) && !n.wildChild && k < |n.indices|
    ensures k < |n.children| && ChildOk(n.children[k], n.indices[k])
    ensures NodeOk(n.children[k]) && !ParamOk(n.children[k])
  {
    assert ChildOk(n.children[k], n.indices[k]);
    StaticIsNotParam(n.children[k]);
  }

  lemma {:induction false} WalkIndexed(n: Node, k: nat, path: string, full: string, done: nat, h: HandlersChain)
    requires StaticOk(n) && done + |path| <= |full| && h != []
    requires n.path != "" && n.path <= path && |n.path| < |path| && !n.wildChild
    requires k < |n.indices| && n.indices[k] == path[|n.path|]
    requires NodeOk(n.children[k]) && !ParamOk(n.children[k])
    requires Walk(n.children[k], path[|n.path|..], full, done + |n.path|, h).Ok?
    ensures Registers(n, Raise(Bump(n), k, Walk(n.children[k], path[|n.path|..], full, done + |n.path|, h).node), path, full, h)
    decreases n, 0
  {
    hide Walk, Raise, Counted, Registers, ParamOk;
    var c, rest := n.children[k], path[|n.path|..];
    assert ChildOk(c, n.indices[k]);
    if CatchAllOk(c) {
      WalkCatchAll(c, rest, full, done + |n.path|, h);
    } else {
      WalkOk(c, rest, full, done + |n.path|, h);
      WalkInto(n, k, Walk(c, rest, full, done + |n.path|, h).node, path, full, h);
    }
  }
}
