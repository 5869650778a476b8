/** libco's coroutine switching over private and shared stacks.

    A stack address is an offset into the stack's buffer and `stack_bp` is the buffer's length. A
    context switch is one atomic change of the running coroutine; what the running coroutine's own
    code does to its stack is `Execute`. `held` is auxiliary: the bytes between `sp` and the stack's
    base at the moment the coroutine was last switched away from. */
module SharedStack {

  class StackMem {
    var occupant: Coroutine?
    var buffer: seq<bv8>

    constructor (size: nat)
      ensures occupant == null && |buffer| == size
    {
      occupant := null;
      buffer := seq(size, _ => 0);
    }
  }

  class Coroutine {
    const stack: StackMem
    const shared: bool
    var started: bool
    var sp: nat
    var saveBuffer: seq<bv8>
    var saveSize: nat
    ghost var held: seq<bv8>

    constructor (stack: StackMem, shared: bool)
      ensures this.stack == stack && this.shared == shared && !started
    {
      this.stack, this.shared := stack, shared;
      started, sp, saveBuffer, saveSize, held := false, 0, [], 0, [];
    }

    /** Copies the used part of the stack out. */
    method SaveStackBuffer()
      requires sp <= |stack.buffer|
      modifies this`saveBuffer, this`saveSize
      ensures saveBuffer == stack.buffer[sp..] && saveSize == |saveBuffer|
    {
      var len := |stack.buffer| - sp;
      saveBuffer := stack.buffer[sp..sp + len];
      saveSize := len;
    }

    /** Copies the saved part back to where it was. */
    method RestoreStackBuffer()
      requires saveSize == |saveBuffer| && sp + saveSize == |stack.buffer|
      modifies stack`buffer
      ensures |stack.buffer| == old(|stack.buffer|) && stack.buffer[sp..] == saveBuffer
    {
      if saveSize > 0 {
        stack.buffer := stack.buffer[..sp] + saveBuffer + stack.buffer[sp + saveSize..];
      }
    }
  }

  /** Where a coroutine that was switched away from has its bytes. */
  ghost predicate Kept(c: Coroutine)
    reads c, c.stack
  {
    && c.sp + |c.held| == |c.stack.buffer|
    && (c.shared ==> c.stack.occupant != null)
    && if !c.shared || c.stack.occupant == c then c.stack.buffer[c.sp..] == c.held
       else c.saveBuffer == c.held && c.saveSize == |c.held|
  }

  /** The coroutine's stack holds, from its stack pointer on, the bytes it was suspended with. */
  ghost predicate Continues(c: Coroutine)
    reads c, c.stack
  {
    c.sp <= |c.stack.buffer| && c.stack.buffer[c.sp..] == c.held
  }

  const MAX_DEPTH: nat := 128

  class Env {
    var callStack: seq<Coroutine>
    var pending: Coroutine?
    var occupy: Coroutine?
    ghost var cos: set<Coroutine>
    ghost var stacks: set<StackMem>

    /** Private stacks have one user, and occupants belong where they are recorded. */
    ghost predicate StacksFit()
      reads this, cos, stacks
    {
      && (forall c :: c in cos ==> c.stack in stacks)
      && (forall c, d :: c in cos && d in cos && c.stack == d.stack && !c.shared ==> c == d)
      && (forall m :: m in stacks && m.occupant != null ==>
            m.occupant in cos && m.occupant.stack == m && m.occupant.shared && m.occupant.started)
    }

    /** `run` is the coroutine whose code is running. */
    ghost predicate Shape(run: Coroutine)
      reads this, cos, stacks
    {
      && StacksFit() && run in cos && run.started
      && (run.shared ==> run.stack.occupant == run)
    }

    /** Every started coroutine but `run` has its bytes. */
    ghost predicate OthersKept(run: Coroutine)
      requires StacksFit()
      reads this, cos, stacks
    {
      forall c :: c in cos && c.started && c != run ==> Kept(c)
    }

    ghost predicate Valid()
      reads this, cos, stacks
    {
      && callStack != []
      && (forall i :: 0 <= i < |callStack| ==> callStack[i] in cos && callStack[i].started)
      && Shape(Running()) && OthersKept(Running())
    }

    function Running(): Coroutine
      requires callStack != []
      reads this
    {
      callStack[|callStack| - 1]
    }

    /** What `next` finds when it continues after the switch. */
    ghost predicate Ready(next: Coroutine)
      reads this, next, next.stack
    {
      && next.sp + |next.held| == |next.stack.buffer|
      && (pending != null ==> pending == next)
      && if occupy != null && pending == next && occupy != pending
         then next.saveBuffer == next.held && next.saveSize == |next.held|
         else next.stack.buffer[next.sp..] == next.held
    }

    /** The part of `co_swap` that hands a shared stack on: whoever is recorded as its occupant is saved. */
    method Displace(next: Coroutine)
      requires next.stack.occupant != null && next.stack.occupant != next ==>
        next.stack.occupant.stack == next.stack && next.stack.occupant.sp <= |next.stack.buffer|
      modifies this`pending, this`occupy, next.stack`occupant, next.stack.occupant
      ensures pending == next && occupy == old(next.stack.occupant) && next.stack.occupant == next
      ensures
        var o := old(next.stack.occupant);
        o != null ==>
          && o.started == old(next.stack.occupant.started) && o.held == old(next.stack.occupant.held)
          && o.sp == old(next.stack.occupant.sp)
          && if o != next then o.saveBuffer == next.stack.buffer[o.sp..] && o.saveSize == |o.saveBuffer|
             else o.saveBuffer == old(next.saveBuffer) && o.saveSize == old(next.saveSize)
    {
      pending := next;
      var o := next.stack.occupant;
      next.stack.occupant := next;
      occupy := o;
      if o != null && o != next {
        o.SaveStackBuffer();
      }
    }

    /** `next` becomes the occupant of its shared stack; the bytes of the one it displaces are saved. */
    method TakeStack(next: Coroutine)
      requires StacksFit() && next in cos && next.started && next.shared && OthersKept(next)
      modifies this`pending, this`occupy, cos, stacks
      ensures StacksFit() && next.stack.occupant == next && OthersKept(next)
      ensures old(Kept(next)) ==> Ready(next)
      ensures forall c :: c in cos ==> c.started == old(c.started) && c.held == old(c.held) && c.sp == old(c.sp)
      ensures forall m :: m in stacks ==> m.buffer == old(m.buffer)
    {
      var o := next.stack.occupant;
      if o != null && o != next { assert Kept(o); }
      Displace(next);
    }

    /** `co_swap` up to the context switch. `suspended` says that `next` will continue inside its own
        `co_swap`; otherwise it starts from the top of its function. */
    method BeforeSwitch(curr: Coroutine, next: Coroutine, sp: nat, suspended: bool)
      requires Shape(curr) && next in cos && next.started && sp <= |curr.stack.buffer|
      requires forall c :: c in cos && c.started && c != curr && c != next ==> Kept(c)
      requires suspended && next != curr ==> Kept(next)
      requires next == curr ==> suspended
      modifies this`pending, this`occupy, cos, stacks
      ensures Shape(next) && OthersKept(next)
      ensures suspended ==> Ready(next)
      ensures forall c :: c in cos ==> c.started == old(c.started)
      ensures forall c :: c in cos && c != curr ==> c.held == old(c.held) && c.sp == old(c.sp)
      ensures curr.held == old(curr.stack.buffer[sp..])
      ensures forall m :: m in stacks ==> m.buffer == old(m.buffer)
    {
      curr.sp := sp;
      curr.held := curr.stack.buffer[sp..];
      if !next.shared {
        pending, occupy := null, null;
      } else {
        TakeStack(next);
      }
    }

    /** `co_swap` after the context switch, run by the coroutine switched to. */
    method AfterSwitch(ghost next: Coroutine)
      requires Shape(next) && OthersKept(next) && Ready(next)
      modifies next.stack`buffer
      ensures Shape(next) && OthersKept(next)
      ensures Continues(next) && |next.stack.buffer| == old(|next.stack.buffer|)
    {
      var o, p := occupy, pending;
      if o != null && p != null && o != p {
        p.RestoreStackBuffer();
      }
    }

    method Swap(curr: Coroutine, next: Coroutine, sp: nat, suspended: bool)
      requires Shape(curr) && next in cos && next.started && sp <= |curr.stack.buffer|
      requires forall c :: c in cos && c.started && c != curr && c != next ==> Kept(c)
      requires suspended && next != curr ==> Kept(next)
      requires next == curr ==> suspended
      modifies this`pending, this`occupy, cos, stacks
      ensures Shape(next) && OthersKept(next)
      ensures suspended ==> Continues(next)
      ensures forall c :: c in cos ==> c.started == old(c.started)
      ensures forall c :: c in cos && c != curr ==> c.held == old(c.held) && c.sp == old(c.sp)
      ensures curr.held == old(curr.stack.buffer[sp..])
      ensures forall m :: m in stacks ==> |m.buffer| == old(|m.buffer|)
    {
      BeforeSwitch(curr, next, sp, suspended);
      if suspended {
        AfterSwitch(next);
      }
    }

    /** `co_resume`: a coroutine that was suspended before continues on the bytes it was suspended
        with. The call stack of the source has room for 128 coroutines. */
    method Resume(co: Coroutine, sp: nat)
      requires Valid() && co in cos && |callStack| < MAX_DEPTH && sp <= |Running().stack.buffer|
      modifies this`callStack, this`pending, this`occupy, cos, stacks
      ensures Valid() && callStack == old(callStack) + [co]
      ensures old(co.started) ==> Continues(co)
      ensures forall c :: c in cos ==> c.started == (old(c.started) || c == co)
      ensures forall c :: c in cos && c != old(Running()) ==> c.held == old(c.held) && c.sp == old(c.sp)
      ensures old(Running()).held == old(Running().stack.buffer[sp..])
      ensures forall m :: m in stacks ==> |m.buffer| == old(|m.buffer|)
    {
      var curr := Running();
      var suspended := co.started;
      if !co.started {
        co.started := true;
      }
      callStack := callStack + [co];
      Swap(curr, co, sp, suspended);
    }

    /** `co_yield_env`: the resumer continues on the bytes it was suspended with. */
    method Yield(sp: nat)
      requires Valid() && |callStack| >= 2 && sp <= |Running().stack.buffer|
      modifies this`callStack, this`pending, this`occupy, cos, stacks
      ensures Valid() && callStack == old(callStack[..|callStack| - 1])
      ensures Continues(Running())
      ensures forall c :: c in cos ==> c.started == old(c.started)
      ensures forall c :: c in cos && c != old(Running()) ==> c.held == old(c.held) && c.sp == old(c.sp)
      ensures old(Running()).held == old(Running().stack.buffer[sp..])
      ensures forall m :: m in stacks ==> |m.buffer| == old(|m.buffer|)
    {
      var last, curr := callStack[|callStack| - 2], callStack[|callStack| - 1];
      callStack := callStack[..|callStack| - 1];
      Swap(curr, last, sp, true);
    }

    /** The running coroutine's code: it may leave any bytes on its own stack, and no suspended
        coroutine notices. */
    method Execute(bytes: seq<bv8>)
      requires Valid() && |bytes| == |Running().stack.buffer|
      modifies Running().stack`buffer
      ensures Valid() && Running().stack.buffer == bytes
    {
      Running().stack.buffer := bytes;
    }

    /** A coroutine on a stack of its own, or on the given shared one. */
    method Create(share: StackMem?, size: nat) returns (co: Coroutine)
      requires Valid()
      requires share != null ==> share in stacks && forall c :: c in cos && c.stack == share ==> c.shared
      modifies this`cos, this`stacks
      ensures Valid() && fresh(co) && !co.started && cos == old(cos) + {co}
      ensures if share == null then fresh(co.stack) && !co.shared && |co.stack.buffer| == size
              else co.stack == share && co.shared
      ensures stacks == old(stacks) + {co.stack}
    {
      var mem := share;
      if mem == null {
        mem := new StackMem(size);
      }
      co := new Coroutine(mem, share != null);
      cos, stacks := cos + {co}, stacks + {mem};
    }

    /** `co_alloc_sharestack`, one stack at a time. */
    method AddSharedStack(size: nat) returns (mem: StackMem)
      requires Valid()
      modifies this`stacks
      ensures Valid() && fresh(mem) && |mem.buffer| == size && stacks == old(stacks) + {mem}
    {
      mem := new StackMem(size);
      stacks := stacks + {mem};
    }

    /** `co_release` of a coroutine that is not on the call stack: nobody is disturbed, unless its stack goes
        on to name it as the occupant. */
    method Release(co: Coroutine)
      requires Valid() && co in cos && co !in callStack
      modifies this`cos
      ensures cos == old(cos) - {co}
      ensures Valid() <==> co.stack.occupant != co
    {
      cos := cos - {co};
    }

    /** What goes wrong otherwise: the next switch to another coroutine on that stack writes to the released
        one, which it saves as the occupant. */
    method ReleaseOccupant(co: Coroutine, next: Coroutine)
      requires Valid() && co in cos && co !in callStack && co.stack.occupant == co
      requires next in cos && next != co && next.shared && next.stack == co.stack
      modifies this`cos, this`pending, this`occupy, co.stack`occupant, co
      ensures co !in cos && occupy == co
      ensures co.saveBuffer == old(co.held) && co.saveSize == |old(co.held)|
    {
      assert Kept(co);
      Release(co);
      Displace(next);
    }

    /** The main coroutine runs from the start on a stack of its own. */
    constructor (size: nat)
      ensures Valid() && |callStack| == 1 && !Running().shared && cos == {Running()}
      ensures fresh(cos) && fresh(stacks)
    {
      var mem := new StackMem(size);
      var main := new Coroutine(mem, false);
      main.started := true;
      callStack, pending, occupy, cos, stacks := [main], null, null, {main}, {mem};
    }
  }
}
