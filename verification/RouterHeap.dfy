/** gin's route tree as it is: nodes on the heap, changed in place. Every method is proved to do to
    the tree under the node what the corresponding function does to its value, so the theorems about
    `Build` and `Lookup` hold for the heap tree. A walk that the source writes as a loop over a node
    pointer is a recursive call on that node where it changes the tree. */
module RouterHeap {
  import opened RoutePatterns
  import opened RouteTree
  import opened RouteInsert
  import opened Router

  /** The loop of `longestCommonPrefix`. */
  method LongestCommonPrefix(a: string, b: string) returns (i: nat)
    ensures i == Lcp(a, b)
  {
    i := 0;
    var max := if |a| <= |b| then |a| else |b|;
    while i < max && a[i] == b[i]
      invariant i <= max && i + Lcp(a[i..], b[i..]) == Lcp(a, b)
    {
      assert a[i..][1..] == a[i + 1..] && b[i..][1..] == b[i + 1..];
      i := i + 1;
    }
  }

  /** The inner loop of `findWildcard`: the end of the name, and whether it holds no wildcard character. */
  method ScanName(rest: string) returns (end: nat, valid: bool)
    ensures end == SegmentEnd(rest) && valid == Literal(rest[..end])
  {
    valid, end := true, 0;
    while end < |rest| && rest[end] != '/'
      invariant end <= |rest| && valid == Literal(rest[..end]) && end + SegmentEnd(rest[end..]) == SegmentEnd(rest)
    {
      assert rest[end..][1..] == rest[end + 1..] && rest[..end + 1] == rest[..end] + [rest[end]];
      if rest[end] == ':' || rest[end] == '*' { valid := false; }
      end := end + 1;
    }
  }

  /** The outer loop of `findWildcard`: the first wildcard character. */
  method ScanStart(path: string) returns (start: nat)
    ensures start == FirstWild(path)
  {
    start := 0;
    while start < |path| && path[start] != ':' && path[start] != '*'
      invariant start <= |path| && start + FirstWild(path[start..]) == FirstWild(path)
    {
      assert path[start..][1..] == path[start + 1..];
      start := start + 1;
    }
  }

  method ScanWildcard(path: string) returns (w: Wildcard)
    ensures w == FindWildcard(path)
  {
    hide Literal, FirstWild, SegmentEnd;
    var start := ScanStart(path);
    if start == |path| { return NoWildcard; }
    var end, valid := ScanName(path[start + 1..]);
    var text := path[start..start + 1 + end];
    assert text[1..] == path[start + 1..][..end];
    return Wildcard(text, start, valid);
  }

  lemma {:induction false} NewPosIgnores(cs: seq<Node>, pos: nat, x: Node, prio: nat, k: nat)
    requires k <= pos < |cs|
    ensures NewPos(cs[pos := x], k, prio) == NewPos(cs, k, prio)
  {
    if k > 0 { NewPosIgnores(cs, pos, x, prio, k - 1); }
  }

  lemma {:induction false} MoveStep<X>(s: seq<X>, from: nat, to: nat)
    requires 0 < to <= from < |s|
    ensures
      var r := Move(s, from, to);
      r[to - 1 := r[to]][to := r[to - 1]] == Move(s, from, to - 1) && r[to - 1] == s[to - 1] && r[to] == s[from]
  {
  }

  /** The swaps of `incrementChildPrio`. */
  method MoveForward(children: seq<TreeNode>, pos: nat, ghost values: seq<Node>) returns (cs: seq<TreeNode>, newPos: nat)
    requires pos < |children| == |values| && forall i :: 0 <= i < |children| ==> children[i].priority == values[i].priority
    ensures newPos == NewPos(values, pos, values[pos].priority) && cs == Move(children, pos, newPos)
  {
    cs, newPos := children, pos;
    var prio := cs[pos].priority;
    assert cs == Move(children, pos, pos);
    hide Move;
    while newPos > 0 && cs[newPos - 1].priority < prio
      invariant newPos <= pos && cs == Move(children, pos, newPos)
      invariant NewPos(values, newPos, prio) == NewPos(values, pos, prio)
    {
      MoveStep(children, pos, newPos);
      cs := cs[newPos - 1 := cs[newPos]][newPos := cs[newPos - 1]];
      newPos := newPos - 1;
    }
    if newPos > 0 { MoveStep(children, pos, newPos); }
  }

  class TreeNode {
    var path: string
    var indices: string
    var wildChild: bool
    var nType: NodeType
    var priority: nat
    var children: seq<TreeNode>
    var handlers: HandlersChain
    var fullPath: string

    /** The nodes of the subtree, and the subtree as a value. */
    ghost var Repr: set<TreeNode>
    ghost var Value: Node

    /** The nodes `kids` head disjoint valid subtrees inside `Repr`, none containing this node. */
    ghost predicate Owns(kids: seq<TreeNode>)
      reads this, Repr
      decreases Repr, 0
    {
      && this in Repr
      && (forall i :: 0 <= i < |kids| ==>
            kids[i] in Repr && kids[i].Repr <= Repr && this !in kids[i].Repr && kids[i].Valid())
      && (forall i, j :: 0 <= i < j < |kids| ==> kids[i].Repr !! kids[j].Repr)
    }

    ghost predicate Holds(kids: seq<TreeNode>, values: seq<Node>)
      reads kids
    {
      |kids| == |values| && forall i :: 0 <= i < |kids| ==> kids[i].Value == values[i]
    }

    ghost predicate Valid()
      reads this, Repr
      ensures Valid() ==> this in Repr
      decreases Repr, 1
    {
      && Owns(children)
      && Value == Node(path, indices, wildChild, nType, priority, Value.children, handlers, fullPath)
      && Holds(children, Value.children)
    }

    lemma {:induction false} OwnsMoved(kids: seq<TreeNode>, values: seq<Node>, from: nat, to: nat)
      requires Owns(kids) && Holds(kids, values) && to <= from < |kids|
      ensures Owns(Move(kids, from, to)) && Holds(Move(kids, from, to), Move(values, from, to))
    {
      var ks := Move(kids, from, to);
      forall i, j | 0 <= i < j < |ks|
        ensures ks[i].Repr !! ks[j].Repr
      {
        var k := if i < to || i > from then i else if i == to then from else i - 1;
        var m := if j < to || j > from then j else if j == to then from else j - 1;
        assert ks[i] == kids[k] && ks[j] == kids[m];
      }
    }

    constructor (path: string, nType: NodeType, priority: nat, handlers: HandlersChain, fullPath: string)
      ensures Valid() && Repr == {this}
      ensures Value == Node(path, "", false, nType, priority, [], handlers, fullPath)
    {
      this.path, this.indices, this.wildChild, this.nType := path, "", false, nType;
      this.priority, this.children, this.handlers, this.fullPath := priority, [], handlers, fullPath;
      Repr, Value := {this}, Node(path, "", false, nType, priority, [], handlers, fullPath);
    }

    /** Writes fields of this node only. */
    method Store(path: string, indices: string, wildChild: bool, children: seq<TreeNode>, handlers: HandlersChain,
        fullPath: string, ghost v: Node)
      requires Owns(children) && Holds(children, v.children)
      requires v == Node(path, indices, wildChild, nType, priority, v.children, handlers, fullPath)
      modifies `path, `indices, `wildChild, `children, `handlers, `fullPath, `Value
      ensures Valid() && Value == v && this.children == children
    {
      hide Holds;
      assert forall i :: 0 <= i < |children| ==> children[i] != this && this !in children[i].Repr;
      this.path, this.indices, this.wildChild, this.children := path, indices, wildChild, children;
      this.handlers, this.fullPath, this.Value := handlers, fullPath, v;
      assert forall i :: 0 <= i < |children| ==> children[i].Valid();
    }

    method Finish(path: string, handlers: HandlersChain, fullPath: string)
      requires Valid()
      modifies `path, `handlers, `fullPath, `Value
      ensures Valid() && Value == old(Value).(path := path, handlers := handlers, fullPath := fullPath)
    {
      this.path, this.handlers, this.fullPath := path, handlers, fullPath;
      this.Value := Value.(path := path, handlers := handlers, fullPath := fullPath);
    }

    method BumpPriority()
      requires Valid()
      modifies `priority, `Value
      ensures Valid() && Value == Bump(old(Value))
    {
      priority := priority + 1;
      Value := Bump(Value);
    }

    method BumpChild(pos: nat)
      requires Valid() && pos < |children|
      modifies children[pos]
      ensures children[pos].Repr == old(children[pos].Repr)
      ensures Owns(children) && Holds(children, Value.children[pos := Bump(Value.children[pos])])
      ensures forall i :: 0 <= i < |children| ==>
        children[i].priority == Value.children[pos := Bump(Value.children[pos])][i].priority
    {
      var c := children[pos];
      c.BumpPriority();
      forall i | 0 <= i < |children| && i != pos
        ensures children[i].Valid() && children[i].Value == Value.children[i]
      {
        assert c !in children[i].Repr;
      }
    }

    /** Adds one to the priority of an only child. */
    method BumpOnly()
      requires Valid() && |children| == 1
      modifies this, children[0]
      ensures Valid() && Repr == old(Repr) && children == old(children) && path == old(path)
      ensures Value == old(Value).(children := [Bump(old(Value).children[0])])
    {
      BumpChild(0);
      ghost var v := Value.(children := [Bump(Value.children[0])]);
      Store(path, indices, wildChild, children, handlers, fullPath, v);
    }

    /** Adds one to a child's priority and moves it in front of all lighter siblings. */
    method IncrementChildPrio(pos: nat) returns (newPos: nat)
      requires Valid() && pos < |children| == |indices|
      modifies this, children[pos]
      ensures Valid() && Repr == old(Repr)
      ensures newPos == NewPos(old(Value).children, pos, old(Value).children[pos].priority + 1)
      ensures Value == Raise(old(Value), pos, Bump(old(Value).children[pos]))
      ensures nType == old(nType) && newPos < |children| && children[newPos] == old(children[pos])
      ensures children[newPos].Repr == old(children[pos].Repr)
    {
      BumpChild(pos);
      newPos := Reorder(pos, Value.children[pos := Bump(Value.children[pos])]);
    }

    method Reorder(pos: nat, ghost values: seq<Node>) returns (newPos: nat)
      requires Owns(children) && Holds(children, values) && pos < |children| == |indices|
      requires Value == Node(path, indices, wildChild, nType, priority, Value.children, handlers, fullPath)
      requires |Value.children| == |children| && values == Value.children[pos := Bump(Value.children[pos])]
      requires forall i :: 0 <= i < |children| ==> children[i].priority == values[i].priority
      modifies `path, `indices, `wildChild, `children, `handlers, `fullPath, `Value
      ensures Valid() && newPos == NewPos(old(Value).children, pos, old(Value).children[pos].priority + 1)
      ensures Value == Raise(old(Value), pos, values[pos])
      ensures newPos < |children| && children[newPos] == old(children[pos])
    {
      var cs;
      cs, newPos := MoveForward(children, pos, values);
      NewPosIgnores(Value.children, pos, values[pos], values[pos].priority, pos);
      OwnsMoved(children, values, pos, newPos);
      hide Owns, Holds, NewPos, Move;
      Store(path, Move(indices, pos, newPos), wildChild, cs, handlers, fullPath, Raise(Value, pos, values[pos]));
    }

    /** Takes the subtree of `kid` into the books of this node. */
    ghost method Include(kid: TreeNode)
      requires this in Repr && kid.Valid() && this !in kid.Repr
      modifies `Repr
      ensures Repr == old(Repr) + kid.Repr && Owns([kid]) && Holds([kid], [kid.Value])
    {
      Repr := Repr + kid.Repr;
      assert kid.Valid() by { hide Valid, Owns, Holds; }
    }

    /** Makes `kid` the only child. */
    method Adopt(path: string, indices: string, wildChild: bool, kid: TreeNode, handlers: HandlersChain,
        fullPath: string, ghost v: Node)
      requires this in Repr && kid.Valid() && this !in kid.Repr
      requires v == Node(path, indices, wildChild, nType, priority, [kid.Value], handlers, fullPath)
      modifies this
      ensures Valid() && Value == v && Repr == old(Repr) + kid.Repr && nType == old(nType)
      ensures children == [kid] && this.indices == indices
    {
      Include(kid);
      hide Owns, Holds;
      Store(path, indices, wildChild, [kid], handlers, fullPath, v);
      Fields();
    }

    /** `insertChild`: everything under this node for `path`, in place. False stands for a panic. */
    method Insert(path: string, full: string, h: HandlersChain) returns (ok: bool)
      requires Valid()
      modifies this
      ensures ok == InsertChild(old(Value), path, full, h).Ok?
      ensures ok ==> Valid() && Value == InsertChild(old(Value), path, full, h).node
      ensures ok ==> old(Repr) <= Repr && fresh(Repr - old(Repr))
      decreases |path|, 1
    {
      var found := ScanWildcard(path);
      hide FindWildcard, ParamChild;
      if found.NoWildcard? {
        Finish(path, h, full);
        return true;
      }
      var Wildcard(w, i, valid) := found;
      if !valid || |w| < 2 || |children| > 0 {
        return false;
      }
      WildcardText(path);
      hide Owns, Holds;
      if w[0] == ':' {
        var child;
        ok, child := InsertParam(w, path[i..], full, h);
        if ok {
          Adopt(if i > 0 then path[..i] else this.path, indices, true, child, handlers, fullPath, InsertChild(Value, path, full, h).node);
        }
        return;
      }
      if i + |w| != |path| || (|this.path| > 0 && this.path[|this.path| - 1] == '/') || i == 0 || path[i - 1] != '/' {
        return false;
      }
      var inner := NewCatchAll(path[i - 1..], full, h);
      Adopt(path[..i - 1], "/", wildChild, inner, handlers, fullPath, InsertChild(Value, path, full, h).node);
      return true;
    }

    static method NewCatchAll(path: string, full: string, h: HandlersChain) returns (inner: TreeNode)
      ensures inner.Valid() && fresh(inner.Repr)
      ensures inner.Value == Node("", "", true, CatchAll, 1, [Node(path, "", false, CatchAll, 1, [], h, full)], [], full)
    {
      var leaf := new TreeNode(path, CatchAll, 1, h, full);
      inner := new TreeNode("", CatchAll, 1, [], full);
      inner.Adopt("", "", true, leaf, [], full, Node("", "", true, CatchAll, 1, [leaf.Value], [], full));
    }

    /** The parameter branch of `insertChild`. */
    static method InsertParam(w: string, path: string, full: string, h: HandlersChain) returns (ok: bool, child: TreeNode)
      requires w != "" && w <= path
      ensures ok == ParamChild(w, path, full, h).Ok?
      ensures ok ==> child.Valid() && child.Value == ParamChild(w, path, full, h).node && fresh(child.Repr)
      decreases |path|, 0
    {
      child := new TreeNode(w, ParamNode, 1, if |w| < |path| then [] else h, full);
      ok := true;
      if |w| < |path| {
        var n := new TreeNode("", Static, 1, [], full);
        ok := n.Insert(path[|w|..], full, h);
        if ok {
          child.Adopt(w, "", false, n, [], full, ParamChild(w, path, full, h).node);
        }
      }
    }

    /** Takes the changed subtree at `pos` back into the books of this node. */
    ghost method Rejoin(pos: nat)
      requires this in Repr && pos < |children|
      requires Value == Node(path, indices, wildChild, nType, priority, Value.children, handlers, fullPath)
      requires |Value.children| == |children|
      requires children[pos].Valid() && this !in children[pos].Repr
      requires forall i :: 0 <= i < |children| && i != pos ==>
        && children[i] in Repr && children[i].Repr <= Repr && this !in children[i].Repr && children[i].Valid()
        && children[i].Repr !! children[pos].Repr && Value.children[i] == children[i].Value
      requires forall i, j :: 0 <= i < j < |children| && i != pos && j != pos ==> children[i].Repr !! children[j].Repr
      modifies `Repr, `Value
      ensures Valid() && Repr == old(Repr) + children[pos].Repr
      ensures Value == old(Value).(children := old(Value).children[pos := children[pos].Value])
    {
      Repr := Repr + children[pos].Repr;
      Value := Value.(children := Value.children[pos := children[pos].Value]);
      assert forall i :: 0 <= i < |children| ==> children[i].Valid();
    }

    /** Inserts into the child at `pos`, a node without children. */
    method InsertAt(pos: nat, path: string, full: string, h: HandlersChain) returns (ok: bool)
      requires Valid() && pos < |children|
      modifies this, children[pos]
      ensures ok == InsertChild(old(Value).children[pos], path, full, h).Ok?
      ensures ok ==> Valid() && old(Repr) <= Repr && fresh(Repr - old(Repr))
      ensures ok ==> Value == old(Value).(children := old(Value).children[pos := InsertChild(old(Value).children[pos], path, full, h).node])
    {
      var c := children[pos];
      ok := c.Insert(path, full, h);
      if ok {
        hide InsertChild;
        forall i | 0 <= i < |children| && i != pos
          ensures children[i].Valid() && children[i].Repr !! c.Repr && Value.children[i] == children[i].Value
        {
          assert c !in children[i].Repr;
        }
        Rejoin(pos);
      }
    }

    /** Makes room in the books of this node for one more child. */
    ghost method Widen(child: TreeNode)
      requires Valid() && child.Valid() && child.Repr == {child} && child !in Repr
      modifies `Repr
      ensures Repr == old(Repr) + {child} && Owns(children + [child])
      ensures Holds(children + [child], Value.children + [child.Value])
      ensures Value == Node(path, indices, wildChild, nType, priority, Value.children, handlers, fullPath)
      ensures |Value.children| == |children|
    {
      Repr := Repr + {child};
      assert forall i :: 0 <= i < |children| ==> children[i].Valid() && child !in children[i].Repr;
      assert child.Valid() by { hide Valid, Owns, Holds; }
    }

    /** Appends a new, empty child for index byte `c`. */
    method Append(c: char, full: string)
      requires Valid() && |children| == |indices|
      modifies this
      ensures Valid() && old(Repr) <= Repr && fresh(Repr - old(Repr)) && |children| == |indices|
      ensures Value == old(Value).(indices := old(Value).indices + [c], children := old(Value).children + [NewNode(full, 0)])
      ensures |children| == old(|children|) + 1 && fresh(children[|children| - 1])
    {
      var child := new TreeNode("", Static, 0, [], full);
      ghost var v := Value.(indices := Value.indices + [c], children := Value.children + [child.Value]);
      Widen(child);
      hide Owns, Holds;
      Store(path, indices + [c], wildChild, children + [child], handlers, fullPath, v);
    }

    /** "Otherwise insert it": a new child for a literal byte, or a wildcard right under this node. */
    method AttachHere(path: string, full: string, h: HandlersChain) returns (ok: bool)
      requires Valid() && path != "" && |children| == |indices|
      modifies this
      ensures ok == Attach(old(Value), path, full, h).Ok?
      ensures ok ==> Valid() && Value == Attach(old(Value), path, full, h).node
      ensures ok ==> old(Repr) <= Repr && fresh(Repr - old(Repr))
    {
      if path[0] != ':' && path[0] != '*' {
        ok := AttachNew(path, full, h, InsertChild(NewNode(full, 1), path, full, h));
      } else {
        ok := Insert(path, full, h);
      }
    }

    method AttachNew(path: string, full: string, h: HandlersChain, ghost new_: Result) returns (ok: bool)
      requires Valid() && path != "" && |children| == |indices| && new_ == InsertChild(NewNode(full, 1), path, full, h)
      modifies this
      ensures ok == new_.Ok?
      ensures
        var m := old(Value).(indices := old(Value).indices + [path[0]], children := old(Value).children + [NewNode(full, 0)]);
        ok ==> Valid() && |m.children| == |m.indices| && Value == Raise(m, |m.children| - 1, new_.node)
      ensures ok ==> old(Repr) <= Repr && fresh(Repr - old(Repr))
    {
      hide InsertChild, Raise;
      Append(path[0], full);
      assert Value.children[|indices| - 1] == NewNode(full, 0);
      ok := RaiseAndInsert(|indices| - 1, path, full, h, new_);
    }

    method RaiseAndInsert(k: nat, path: string, full: string, h: HandlersChain, ghost new_: Result) returns (ok: bool)
      requires Valid() && k < |children| == |indices| && new_ == InsertChild(NewNode(full, 1), path, full, h)
      requires Value.children[k] == NewNode(full, 0)
      modifies this, children[k]
      ensures ok == new_.Ok?
      ensures ok ==> Valid() && Value == Raise(old(Value), k, new_.node)
      ensures ok ==> old(Repr) <= Repr && fresh(Repr - old(Repr))
    {
      ghost var m := Value;
      var pos := IncrementChildPrio(k);
      RaisedChild(m, k, NewNode(full, 1));
      hide InsertChild, Raise, NewPos, Move, Valid;
      ok := InsertAt(pos, path, full, h);
      if ok {
        RaiseThenSet(m, k, NewNode(full, 1), new_.node);
      }
    }

    /** Splits the edge after `i` bytes: a new child takes over everything below. */
    method SplitEdge(i: nat, prefixFull: string)
      requires Valid() && i < |path| && priority >= 1
      modifies this
      ensures Valid() && Value == Split(old(Value), i, prefixFull) && |children| == |indices|
      ensures old(Repr) <= Repr && fresh(Repr - old(Repr))
    {
      var child := LowerHalf(i);
      hide Valid;
      Adopt(path[..i], [path[i]], false, child, [], prefixFull, Split(Value, i, prefixFull));
    }

    method LowerHalf(i: nat) returns (child: TreeNode)
      requires Valid() && i < |path| && priority >= 1
      ensures child.Valid() && fresh(child) && child.Repr == {child} + (Repr - {this})
      ensures child.Value == Value.(path := Value.path[i..], nType := Static, priority := Value.priority - 1)
      ensures this in Repr
    {
      child := new TreeNode(path[i..], Static, priority - 1, handlers, fullPath);
      child.TakeOver(indices, wildChild, children, Repr - {this}, Value.children);
    }

    /** A fresh node takes over the children of another one. */
    method TakeOver(indices: string, wildChild: bool, children: seq<TreeNode>, ghost below: set<TreeNode>, ghost values: seq<Node>)
      requires Valid() && Repr == {this} && this.children == [] && this !in below && Holds(children, values)
      requires forall i :: 0 <= i < |children| ==> children[i] in below && children[i].Repr <= below && children[i].Valid()
      requires forall i, j :: 0 <= i < j < |children| ==> children[i].Repr !! children[j].Repr
      modifies this
      ensures Valid() && Repr == {this} + below
      ensures Value == old(Value).(indices := indices, wildChild := wildChild, children := values)
    {
      this.indices, this.wildChild, this.children := indices, wildChild, children;
      Repr, Value := Repr + below, Value.(indices := indices, wildChild := wildChild, children := values);
      assert forall i :: 0 <= i < |children| ==> children[i].Valid();
    }

    /** Goes on with the walk in the child at `pos`, whose priority has been counted up already. */
    method Descend(pos: nat, path: string, full: string, done: nat, h: HandlersChain, ghost v: Node) returns (ok: bool)
      requires Valid() && pos < |children| && Value.children[pos] == Bump(v)
      requires NodeOk(v) && path != "" && done + |path| <= |full|
      requires (ParamOk(v) ==> Continues(v, path)) && (StaticOk(v) ==> Starts(v, path[0]))
      modifies Repr
      ensures ok == Walk(v, path, full, done, h).Ok?
      ensures ok ==> Valid() && old(Repr) <= Repr && fresh(Repr - old(Repr))
      ensures ok ==> Value == old(Value).(children := old(Value).children[pos := Walk(v, path, full, done, h).node])
      decreases v, 2
    {
      var c := children[pos];
      ghost var kids, changed := children, c.Repr;
      KidsApart(pos);
      hide Walk, NodeOk, StaticOk, ParamOk;
      ok := c.WalkFrom(path, full, done, h, v);
      if ok {
        assert children == kids;
        forall i | 0 <= i < |kids| && i != pos
          ensures kids[i].Valid() && kids[i].Repr !! c.Repr && Value.children[i] == kids[i].Value
        {
          assert kids[i] !in changed && kids[i].Repr !! changed;
        }
        Rejoin(pos);
      }
    }

    lemma {:induction false} KidsApart(pos: nat)
      requires Valid() && pos < |children|
      ensures this !in children[pos].Repr && children[pos] in children[pos].Repr && children[pos].Repr <= Repr
      ensures forall i :: 0 <= i < |children| && i != pos ==>
        children[i].Valid() && children[i] in children[i].Repr && children[i].Repr !! children[pos].Repr
    {
    }

    lemma {:induction false} Fields()
      requires Valid()
      ensures this in Repr && Value.path == path && Value.priority == priority && Value.indices == indices
      ensures |Value.children| == |children|
    {
    }

    /** The loop of `addRoute` from this node on, whose priority has been counted up already; `v` is
        the subtree before that. False stands for a panic. */
    method WalkFrom(path: string, full: string, done: nat, h: HandlersChain, ghost v: Node) returns (ok: bool)
      requires Valid() && NodeOk(v) && Value == Bump(v) && path != "" && done + |path| <= |full|
      requires (ParamOk(v) ==> Continues(v, path)) && (StaticOk(v) ==> Starts(v, path[0]))
      modifies Repr
      ensures ok == Walk(v, path, full, done, h).Ok?
      ensures ok ==> Valid() && Value == Walk(v, path, full, done, h).node
      ensures ok ==> old(Repr) <= Repr && fresh(Repr - old(Repr))
      decreases v, 1
    {
      hide Valid, NodeOk, ParamOk, StaticOk, Follow, Attach, SetHandlers, Split, Continues, Starts, Lcp;
      Fields();
      var i := LongestCommonPrefix(path, this.path);
      if i < |this.path| {
        ok := SplitHere(i, path, full, done, h);
      } else if i == |path| {
        ok := SetHere(full, h);
      } else {
        ok := FollowFrom(path, full, done, h, v);
      }
    }

    /** The new path leaves the edge to this node after `i` bytes. */
    method SplitHere(i: nat, path: string, full: string, done: nat, h: HandlersChain) returns (ok: bool)
      requires Valid() && i < |this.path| && i <= |path| && done + i <= |full| && priority >= 1
      modifies this
      ensures
        var m := Split(old(Value), i, full[..done + i]);
        var r := if i < |path| then Attach(m, path[i..], full, h) else SetHandlers(m, full, h);
        ok == r.Ok? && (ok ==> Valid() && Value == r.node)
      ensures ok ==> old(Repr) <= Repr && fresh(Repr - old(Repr))
    {
      hide Valid, Attach, SetHandlers, Split;
      SplitEdge(i, full[..done + i]);
      if i < |path| {
        ok := AttachHere(path[i..], full, h);
      } else {
        ok := SetHere(full, h);
      }
    }

    method SetHere(full: string, h: HandlersChain) returns (ok: bool)
      requires Valid()
      modifies `path, `handlers, `fullPath, `Value
      ensures ok == SetHandlers(old(Value), full, h).Ok?
      ensures ok ==> Valid() && Value == SetHandlers(old(Value), full, h).node
    {
      if handlers != [] { return false; }
      Finish(path, h, full);
      return true;
    }

    /** The part of the loop in which the whole path of this node is a prefix of the new one. */
    method FollowFrom(path: string, full: string, done: nat, h: HandlersChain, ghost v: Node) returns (ok: bool)
      requires Valid() && NodeOk(v) && Value == Bump(v) && |v.path| < |path| && done + |path| <= |full|
      requires ParamOk(v) ==> Continues(v, path)
      modifies Repr
      ensures ok == Follow(v, path, full, done, h).Ok?
      ensures ok ==> Valid() && Value == Follow(v, path, full, done, h).node
      ensures ok ==> old(Repr) <= Repr && fresh(Repr - old(Repr))
      decreases v, 0, 2
    {
      assert this.path == v.path && wildChild == v.wildChild && nType == v.nType && |children| == |v.children|;
      hide NodeOk, ParamOk, Follow, Valid;
      if wildChild {
        ok := FollowWild(path, full, done, h, v);
      } else if nType == ParamNode && path[|this.path|] == '/' && |children| == 1 {
        ok := FollowParam(path, full, done, h, v);
      } else {
        ok := FollowByte(path, full, done, h, v);
      }
    }

    /** The wildcard child must continue the new path under the same name. */
    method FollowWild(path: string, full: string, done: nat, h: HandlersChain, ghost v: Node) returns (ok: bool)
      requires Valid() && NodeOk(v) && Value == Bump(v) && |v.path| < |path| && done + |path| <= |full|
      requires ParamOk(v) ==> Continues(v, path)
      requires v.wildChild
      modifies Repr
      ensures ok == Follow(v, path, full, done, h).Ok?
      ensures ok ==> Valid() && Value == Follow(v, path, full, done, h).node
      ensures ok ==> old(Repr) <= Repr && fresh(Repr - old(Repr))
      decreases v, 0, 1
    {
      WildFacts(v);
      var c, rest := children[0], path[|this.path|..];
      assert c.Valid() && c.Value == v.children[0];
      hide NodeOk, StaticOk, ParamOk, Walk;
      if c.path <= rest && c.nType != CatchAll && (|c.path| >= |rest| || rest[|c.path|] == '/') {
        ok := FollowOnly(rest, full, done + |this.path|, h, v);
      } else {
        ok := false;
      }
    }

    /** What comes after a parameter. */
    method FollowParam(path: string, full: string, done: nat, h: HandlersChain, ghost v: Node) returns (ok: bool)
      requires Valid() && NodeOk(v) && Value == Bump(v) && |v.path| < |path| && done + |path| <= |full|
      requires ParamOk(v) ==> Continues(v, path)
      requires !v.wildChild && v.nType == ParamNode && path[|v.path|] == '/' && |v.children| == 1
      modifies Repr
      ensures ok == Follow(v, path, full, done, h).Ok?
      ensures ok ==> Valid() && Value == Follow(v, path, full, done, h).node
      ensures ok ==> old(Repr) <= Repr && fresh(Repr - old(Repr))
      decreases v, 0, 1
    {
      ParamFacts(v);
      hide NodeOk, StaticOk, ParamOk, Walk;
      ok := FollowOnly(path[|this.path|..], full, done + |this.path|, h, v);
    }

    /** Goes on in the child for the next byte, or attaches one. */
    method FollowByte(path: string, full: string, done: nat, h: HandlersChain, ghost v: Node) returns (ok: bool)
      requires Valid() && NodeOk(v) && Value == Bump(v) && |v.path| < |path| && done + |path| <= |full|
      requires ParamOk(v) ==> Continues(v, path)
      requires !v.wildChild && !(v.nType == ParamNode && path[|v.path|] == '/' && |v.children| == 1)
      modifies Repr
      ensures ok == Follow(v, path, full, done, h).Ok?
      ensures ok ==> Valid() && Value == Follow(v, path, full, done, h).node
      ensures ok ==> old(Repr) <= Repr && fresh(Repr - old(Repr))
      decreases v, 0, 1
    {
      hide Valid, Walk, Attach, Raise, NodeOk, StaticOk, ParamOk, IndexOf;
      Fields();
      var rest := path[|this.path|..];
      var k := FindIndex(indices, rest[0]);
      ByteFacts(v, path, k);
      if k < |indices| {
        ok := FollowIndexed(k, rest, full, done + |this.path|, h, v);
      } else {
        ok := AttachHere(rest, full, h);
      }
    }

    /** Counts up the only child and goes on in it. */
    method FollowOnly(rest: string, full: string, done: nat, h: HandlersChain, ghost v: Node) returns (ok: bool)
      requires Valid() && Value == Bump(v) && |v.children| == 1
      requires NodeOk(v.children[0]) && rest != "" && done + |rest| <= |full|
      requires ParamOk(v.children[0]) ==> Continues(v.children[0], rest)
      requires StaticOk(v.children[0]) ==> Starts(v.children[0], rest[0])
      modifies Repr
      ensures ok == Walk(v.children[0], rest, full, done, h).Ok?
      ensures ok ==> Valid() && Value == Bump(v).(children := [Walk(v.children[0], rest, full, done, h).node])
      ensures ok ==> old(Repr) <= Repr && fresh(Repr - old(Repr))
      decreases v, 0, 0
    {
      hide NodeOk, StaticOk, ParamOk, Walk;
      BumpOnly();
      ok := Descend(0, rest, full, done, h, v.children[0]);
    }

    method FollowIndexed(k: nat, rest: string, full: string, done: nat, h: HandlersChain, ghost v: Node) returns (ok: bool)
      requires Valid() && Value == Bump(v) && k < |v.children| == |v.indices|
      requires NodeOk(v.children[k]) && !ParamOk(v.children[k]) && rest != "" && done + |rest| <= |full|
      requires StaticOk(v.children[k]) ==> Starts(v.children[k], rest[0])
      modifies Repr
      ensures ok == Walk(v.children[k], rest, full, done, h).Ok?
      ensures ok ==> Valid() && Value == Raise(Bump(v), k, Walk(v.children[k], rest, full, done, h).node)
      ensures ok ==> old(Repr) <= Repr && fresh(Repr - old(Repr))
      decreases v, 0, 0
    {
      hide NodeOk, StaticOk, ParamOk, Walk;
      assert |children| == |indices|;
      hide Valid;
      var pos := IncrementChildPrio(k);
      RaisedChild(Bump(v), k, Bump(v.children[k]));
      hide Raise, NewPos, Move;
      ok := Descend(pos, rest, full, done, h, v.children[k]);
      if ok {
        RaiseThenSet(Bump(v), k, Bump(v.children[k]), Walk(v.children[k], rest, full, done, h).node);
      }
    }

    method MarkRoot()
      requires Valid()
      modifies `nType, `Value
      ensures Valid() && Value == old(Value).(nType := Root)
    {
      nType := Root;
      Value := Value.(nType := Root);
    }

    /** `addRoute` on the root of a tree, behind the assertions of the engine. False stands for a panic. */
    method AddRoute(path: string, h: HandlersChain) returns (ok: bool)
      requires Valid() && (Value == NEW_ROOT || (StaticOk(Value) && Starts(Value, '/')))
      modifies Repr
      ensures ok == Router.AddRoute(old(Value), Registration(path, h)).Ok?
      ensures ok ==> Valid() && Value == Router.AddRoute(old(Value), Registration(path, h)).node
      ensures ok ==> old(Repr) <= Repr && fresh(Repr - old(Repr))
    {
      if path == "" || path[0] != '/' || h == [] { return false; }
      ghost var v := Value;
      BumpPriority();
      hide StaticOk, InsertChild, Walk;
      if |this.path| == 0 && |children| == 0 {
        ok := Insert(path, path, h);
        if ok { MarkRoot(); }
      } else {
        StaticIsNotParam(v);
        ok := WalkFrom(path, path, 0, h, v);
      }
    }

    /** `getValue`: the walk down the tree, saving parameters on the way. */
    method GetValue(request: string) returns (value: NodeValue)
      requires Valid() && StaticOk(Value)
      ensures value == Lookup(Value, request, [])
    {
      var n, path, params := this, request, [];
      while |path| > |n.path| && path[..|n.path|] == n.path
        invariant n.Valid() && (StaticOk(n.Value) || CatchAllOk(n.Value))
        invariant Lookup(n.Value, path, params) == Lookup(Value, request, [])
        decreases n.Value
      {
        var rest := path[|n.path|..];
        if !n.wildChild {
          var k := FindIndex(n.indices, rest[0]);
          if k == |n.indices| { return NotFound(params); }
          ChildAt(n, k);
          assert ChildOk(n.Value.children[k], n.Value.indices[k]);
          n, path := n.children[k], rest;
        } else {
          ChildAt(n, 0);
          var c := n.children[0];
          assert ParamOk(c.Value) || CatchAllLeaf(c.Value);
          if c.nType != ParamNode {
            return NodeValue(c.handlers, c.fullPath, params + [Param(c.path[2..], rest)]);
          }
          var end := ScanSegment(rest);
          params := params + [Param(c.path[1..], rest[..end])];
          if end == |rest| {
            return NodeValue(c.handlers, if c.handlers == [] then "" else c.fullPath, params);
          }
          if |c.children| == 0 { return NotFound(params); }
          ChildAt(c, 0);
          assert ParamOk(c.Value) && StaticOk(c.Value.children[0]);
          n, path := c.children[0], rest[end..];
        }
      }
      if path == n.path { return NodeValue(n.handlers, if n.handlers == [] then "" else n.fullPath, params); }
      return NotFound(params);
    }
  }

  lemma {:induction false} ChildAt(n: TreeNode, k: nat)
    requires n.Valid() && k < |n.Value.children|
    ensures k < |n.children| && n.children[k].Valid() && n.children[k].Value == n.Value.children[k]
  {
  }

  method ScanSegment(rest: string) returns (end: nat)
    ensures end == SegmentEnd(rest)
  {
    end := 0;
    while end < |rest| && rest[end] != '/'
      invariant end <= |rest| && end + SegmentEnd(rest[end..]) == SegmentEnd(rest)
    {
      assert rest[end..][1..] == rest[end + 1..];
      end := end + 1;
    }
  }

  // What the walk may rely on at a node of a well-formed tree.

  lemma {:induction false} WildFacts(v: Node)
    requires NodeOk(v) && v.wildChild
    ensures |v.children| == 1
    ensures v.children[0].nType != CatchAll ==> ParamOk(v.children[0]) && NodeOk(v.children[0]) && !StaticOk(v.children[0])
  {
    if StaticOk(v) { StaticIsNotParam(v.children[0]); }
  }

  lemma {:induction false} ParamFacts(v: Node)
    requires NodeOk(v) && !v.wildChild && v.nType == ParamNode && |v.children| == 1
    ensures NodeOk(v.children[0]) && !ParamOk(v.children[0]) && Starts(v.children[0], '/')
  {
    assert StaticOk(v.children[0]);
    StaticIsNotParam(v.children[0]);
  }

  lemma {:induction false} ByteFacts(v: Node, path: string, k: nat)
    requires NodeOk(v) && !v.wildChild && |v.path| < |path| && (ParamOk(v) ==> Continues(v, path))
    requires !(v.nType == ParamNode && path[|v.path|] == '/' && |v.children| == 1)
    ensures |v.children| == |v.indices|
    ensures k < |v.children| ==>
      NodeOk(v.children[k]) && !ParamOk(v.children[k]) && (StaticOk(v.children[k]) ==> Starts(v.children[k], v.indices[k]))
  {
    if StaticOk(v) && k < |v.children| {
      IndexedChild(v, k);
      StaticIsNotParam(v.children[k]);
    }
  }

  method FindIndex(indices: string, c: char) returns (k: nat)
    ensures k == IndexOf(indices, c)
  {
    k := 0;
    while k < |indices| && indices[k] != c
      invariant k <= |indices| && k + IndexOf(indices[k..], c) == IndexOf(indices, c)
    {
      assert indices[k..][1..] == indices[k + 1..];
      k := k + 1;
    }
  }

  lemma {:induction false} RaisedChild(m: Node, pos: nat, x: Node)
    requires pos < |m.children| == |m.indices|
    ensures
      var p := NewPos(m.children, pos, m.children[pos].priority + 1);
      p < |Raise(m, pos, x).children| && Raise(m, pos, x).children[p] == x
  {
  }

  lemma {:induction false} RaiseThenSet(m: Node, pos: nat, x: Node, y: Node)
    requires pos < |m.children| == |m.indices|
    ensures
      var p := NewPos(m.children, pos, m.children[pos].priority + 1);
      var n := Raise(m, pos, x);
      p < |n.children| && n.(children := n.children[p := y]) == Raise(m, pos, y)
  {
    var p := NewPos(m.children, pos, m.children[pos].priority + 1);
    assert Move(m.children[pos := x], pos, p)[p := y] == Move(m.children[pos := y], pos, p);
  }
}
