/** gin's engine with the tree of one HTTP method: registrations change the heap tree and the
    parameter capacity in place, requests read them. */
module Engine {
  import opened RoutePatterns
  import opened RouteTree
  import opened RouteInsert
  import opened Router
  import opened RouterHeap

  lemma {:induction false} BuildNext(regs: seq<Registration>, reg: Registration)
    requires Build(regs).Ok?
    ensures regs != [] ==> StaticOk(Build(regs).node) && Starts(Build(regs).node, '/')
    ensures regs == [] ==> Build(regs).node == NEW_ROOT
    ensures Build(regs + [reg]) == AddRoute(Build(regs).node, reg)
  {
    assert (regs + [reg])[..|regs|] == regs;
  }

  lemma {:induction false} MaxParamsGrows(regs: seq<Registration>, reg: Registration)
    ensures
      var m, c := MaxParams(regs), CountParams(reg.pattern);
      MaxParams(regs + [reg]) == if c > m then c else m
  {
    assert (regs + [reg])[..|regs|] == regs;
  }

  class Engine {
    var root: TreeNode
    var maxParams: nat

    /** Whether the engine has a tree for the method: it gets one with the first registration. */
    var hasTree: bool

    /** The registrations that returned, in order. */
    ghost var Regs: seq<Registration>

    ghost predicate Valid()
      reads this, root, root.Repr
    {
      && root.Valid()
      && Build(Regs) == Ok(root.Value)
      && maxParams == MaxParams(Regs)
      && (hasTree <==> Regs != [])
    }

    constructor ()
      ensures Valid() && Regs == [] && fresh(root.Repr)
    {
      root := new TreeNode("", Static, 0, [], "/");
      maxParams, hasTree, Regs := 0, false, [];
    }

    /** Registers a route in place. False stands for a panic, after which nothing is promised. */
    method AddRoute(path: string, h: HandlersChain) returns (ok: bool)
      requires Valid()
      modifies this, root.Repr
      ensures ok == Build(old(Regs) + [Registration(path, h)]).Ok?
      ensures ok ==> Valid() && Regs == old(Regs) + [Registration(path, h)]
      ensures ok ==> root == old(root) && fresh(root.Repr - old(root.Repr))
    {
      BuildNext(Regs, Registration(path, h));
      hide Build, Built, StaticOk, MaxParams, CountParams, Router.AddRoute, TreeNode.Valid;
      ok := root.AddRoute(path, h);
      if ok {
        Account(path, h);
      }
    }

    /** Updates the engine after a registration. */
    method Account(path: string, h: HandlersChain)
      requires maxParams == MaxParams(Regs)
      modifies `maxParams, `hasTree, `Regs
      ensures Regs == old(Regs) + [Registration(path, h)] && maxParams == MaxParams(Regs) && hasTree
    {
      hide MaxParams, CountParams;
      hasTree := true;
      MaxParamsGrows(Regs, Registration(path, h));
      Regs := Regs + [Registration(path, h)];
      var paramsCount := CountParams(path);
      if paramsCount > maxParams { maxParams := paramsCount; }
    }

    /** Answers a request: the unique registered pattern that matches, or not found; see `Router.Complete`
        and `Router.Sound`. The parameters fit into a context allocated now if the patterns are short. */
    method GetValue(path: string) returns (value: NodeValue)
      requires Valid()
      ensures Build(Regs).Ok? && value == Router.GetValue(Regs, path)
      ensures (forall i :: 0 <= i < |Regs| ==> Wildcards(Regs[i].pattern) < 0x1_0000) ==> |value.params| <= maxParams
    {
      if !hasTree {
        return NotFound([]);
      }
      BuildNext(Regs, Registration("", []));
      hide Build, Built, TreeNode.Valid;
      value := root.GetValue(path);
      if forall i :: 0 <= i < |Regs| ==> Wildcards(Regs[i].pattern) < 0x1_0000 { FitsPath(Regs, path); }
    }
  }
}
