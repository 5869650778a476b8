/** Whole runs of coroutine programs: what a program can observe on stacks that are shared and copied is
    what it would observe if every coroutine had a stack of its own.

    A program says, from what a coroutine finds on its stack when it continues, what it leaves there and
    whom it switches to. */
module SharedStackRuns {
  import opened SharedStack

  datatype Switch = ResumeNo(k: nat) | YieldBack

  datatype Leave = Leave(stack: seq<bv8>, next: Switch)

  type Program = seq<bv8> -> Leave

  // ---------------------------------------------------------------- the reference: a stack for everybody

  /** What each coroutine has on its own stack, and who has resumed whom; the last one runs. */
  datatype Private = Private(contents: seq<seq<bv8>>, path: seq<nat>)

  predicate Ready(s: Private, n: nat) {
    |s.contents| == n && s.path != [] && forall i :: 0 <= i < |s.path| ==> s.path[i] < n
  }

  function Runner(s: Private): nat
    requires s.path != []
  {
    s.path[|s.path| - 1]
  }

  /** What the running coroutine leaves, unless its stack has no room for it. */
  function Left(s: Private, progs: seq<Program>, sizes: seq<nat>): seq<bv8>
    requires Ready(s, |progs|) && |sizes| == |progs|
  {
    var found := s.contents[Runner(s)];
    var stack := progs[Runner(s)](found).stack;
    if |stack| <= sizes[Runner(s)] then stack else found
  }

  /** The switch it asks for, unless it is impossible. */
  function Path(s: Private, progs: seq<Program>): seq<nat>
    requires Ready(s, |progs|)
  {
    match progs[Runner(s)](s.contents[Runner(s)]).next
    case ResumeNo(k) => if k < |progs| && |s.path| < MAX_DEPTH then s.path + [k] else s.path
    case YieldBack => if |s.path| >= 2 then s.path[..|s.path| - 1] else s.path
  }

  function RefStep(s: Private, progs: seq<Program>, sizes: seq<nat>): (t: Private)
    requires Ready(s, |progs|) && |sizes| == |progs|
    ensures Ready(t, |progs|)
  {
    Private(s.contents[Runner(s) := Left(s, progs, sizes)], Path(s, progs))
  }

  /** Who continues on what, for `n` steps. */
  function RefTrace(s: Private, progs: seq<Program>, sizes: seq<nat>, n: nat): seq<(nat, seq<bv8>)>
    requires Ready(s, |progs|) && |sizes| == |progs|
    decreases n
  {
    if n == 0 then []
    else [(Runner(s), s.contents[Runner(s)])] + RefTrace(RefStep(s, progs, sizes), progs, sizes, n - 1)
  }

  // ---------------------------------------------------------------- the same programs on shared stacks

  class Machine {
    const env: Env
    const cos: seq<Coroutine>
    const progs: seq<Program>
    const sizes: seq<nat>
    var path: seq<nat>
    var top: nat

    ghost predicate InPlace(c: Coroutine, size: nat)
      reads env, env.stacks
    {
      c in env.cos && c.stack in env.stacks && |c.stack.buffer| == size
    }

    /** Where the running coroutine's part of its stack begins is `top`. */
    ghost predicate Valid()
      reads this, env, env.cos, env.stacks
    {
      && env.Valid() && |cos| == |progs| == |sizes|
      && (forall j, k :: 0 <= j < k < |cos| ==> cos[j] != cos[k])
      && (forall k :: 0 <= k < |cos| ==> InPlace(cos[k], sizes[k]))
      && |path| == |env.callStack|
      && (forall i :: 0 <= i < |path| ==> path[i] < |cos| && env.callStack[i] == cos[path[i]])
      && top <= |env.Running().stack.buffer|
    }

    /** What coroutine `k` will find on its stack, or finds there now if it runs. */
    ghost function View(k: nat): seq<bv8>
      requires Valid() && k < |cos|
      reads this, env, env.cos, env.stacks
    {
      if cos[k] == env.Running() then cos[k].stack.buffer[top..] else if cos[k].started then cos[k].held else []
    }

    ghost function Abs(): (s: Private)
      requires Valid()
      reads this, env, env.cos, env.stacks
      ensures Ready(s, |progs|)
    {
      Private(seq(|cos|, k requires Valid() && 0 <= k < |cos| reads this, env, env.cos, env.stacks => View(k)), path)
    }

    constructor (env: Env, cos: seq<Coroutine>, progs: seq<Program>, sizes: seq<nat>)
      requires env.Valid() && |cos| == |progs| == |sizes| && cos != []
      requires forall j, k :: 0 <= j < k < |cos| ==> cos[j] != cos[k]
      requires forall k :: 0 <= k < |cos| ==>
        cos[k] in env.cos && cos[k].stack in env.stacks && |cos[k].stack.buffer| == sizes[k]
      requires env.callStack == [cos[0]] && forall k :: 1 <= k < |cos| ==> !cos[k].started
      ensures this.env == env && this.cos == cos && this.progs == progs && this.sizes == sizes
      ensures Valid() && Abs() == Private(seq(|cos|, _ => []), [0])
    {
      this.env, this.cos, this.progs, this.sizes := env, cos, progs, sizes;
      path, top := [0], |cos[0].stack.buffer|;
      new;
      assert Abs().contents == seq(|cos|, _ => []);
    }

    /** The running coroutine leaves `stack` behind; nobody else's view changes. */
    method LeaveStack(stack: seq<bv8>)
      requires Valid() && |stack| <= |env.Running().stack.buffer|
      modifies this`top, env.Running().stack
      ensures Valid() && path == old(path)
      ensures Abs().contents == old(Abs()).contents[Runner(Abs()) := stack]
    {
      ghost var s := Abs();
      var c := env.Running();
      var at := |c.stack.buffer| - |stack|;
      env.Execute(c.stack.buffer[..at] + stack);
      top := at;
      assert View(Runner(s)) == stack;
      assert forall j :: 0 <= j < |cos| && j != Runner(s) ==> View(j) == s.contents[j];
    }

    method DoResume(k: nat)
      requires Valid() && k < |cos| && |path| < MAX_DEPTH
      modifies this, env, env.cos, env.stacks
      ensures Valid() && path == old(path) + [k] && Abs().contents == old(Abs()).contents
      ensures env.cos == old(env.cos) && env.stacks == old(env.stacks)
    {
      ghost var s := Abs();
      var co := cos[k];
      var suspended := co.started;
      env.Resume(co, top);
      path := path + [k];
      top := if suspended then co.sp else |co.stack.buffer|;
      assert forall j :: 0 <= j < |cos| ==> View(j) == s.contents[j];
    }

    method DoYield()
      requires Valid() && |path| >= 2
      modifies this, env, env.cos, env.stacks
      ensures Valid() && path == old(path[..|path| - 1]) && Abs().contents == old(Abs()).contents
      ensures env.cos == old(env.cos) && env.stacks == old(env.stacks)
    {
      ghost var s := Abs();
      env.Yield(top);
      path := path[..|path| - 1];
      top := env.Running().sp;
      assert forall j :: 0 <= j < |cos| ==> View(j) == s.contents[j];
    }

    lemma {:induction false} Found()
      requires Valid()
      ensures path != [] && path[|path| - 1] < |cos| == |progs| == |sizes| && Abs().path == path
      ensures var c := cos[path[|path| - 1]];
        && c == env.Running() && c.stack in env.stacks
        && |c.stack.buffer| == sizes[path[|path| - 1]] && top <= |c.stack.buffer|
        && c.stack.buffer[top..] == Abs().contents[path[|path| - 1]]
    {
      assert View(path[|path| - 1]) == Abs().contents[path[|path| - 1]];
    }

    /** The switch at the end of a stretch. */
    method DoSwitch(next: Switch)
      requires Valid()
      modifies this, env, env.cos, env.stacks
      ensures Valid() && env.cos == old(env.cos) && env.stacks == old(env.stacks)
      ensures Abs().contents == old(Abs()).contents
      ensures path ==
        match next
        case ResumeNo(k) => if k < |progs| && |old(path)| < MAX_DEPTH then old(path) + [k] else old(path)
        case YieldBack => if |old(path)| >= 2 then old(path)[..|old(path)| - 1] else old(path)
    {
      hide View, Abs;
      Found();
      match next
      case ResumeNo(k) =>
        if k < |progs| && |path| < MAX_DEPTH {
          DoResume(k);
        }
      case YieldBack =>
        if |path| >= 2 {
          DoYield();
        }
    }

    /** One stretch of the running program and the switch it ends with. */
    method Step() returns (who: nat, found: seq<bv8>)
      requires Valid()
      modifies this, env, env.cos, env.stacks
      ensures Valid() && env.cos == old(env.cos) && env.stacks == old(env.stacks)
      ensures who == Runner(old(Abs())) && found == old(Abs()).contents[who]
      ensures Abs() == RefStep(old(Abs()), progs, sizes)
    {
      hide View, Abs, Valid;
      Found();
      who := path[|path| - 1];
      found := cos[who].stack.buffer[top..];
      var leave := progs[who](found);
      if |leave.stack| <= sizes[who] {
        LeaveStack(leave.stack);
        Found();
      }
      DoSwitch(leave.next);
      Found();
    }

    /** For every set of programs and every number of steps, whoever continues finds on its shared or
        private stack exactly what it would find on one of its own. */
    method Play(n: nat) returns (trace: seq<(nat, seq<bv8>)>)
      requires Valid()
      modifies this, env, env.cos, env.stacks
      ensures Valid() && trace == RefTrace(old(Abs()), progs, sizes, n)
      decreases n
    {
      if n == 0 {
        return [];
      }
      var who, found := Step();
      var rest := Play(n - 1);
      return [(who, found)] + rest;
    }
  }
}
