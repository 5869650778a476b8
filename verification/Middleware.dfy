/** gin's handler chain: `Next` runs the rest of the chain inside the calling handler, `Abort` keeps the
    handlers that have not started from starting.

    A handler is what it does to the chain, in order. The index is an `int8`, which `Int8` models; an index
    that has wrapped round is negative and ends the request by an index out of range. `started`, the
    handlers started so far, is auxiliary. */
module Middleware {
  import opened Common

  const ABORT_INDEX: int := 63

  const MAX_INT8: int := 127

  datatype Action = CallNext | CallAbort

  type Handler = seq<Action>

  function Int8(x: int): int {
    (x + 128) % 256 - 128
  }

  lemma {:induction false} Int8Step(x: int)
    requires -128 <= x <= MAX_INT8
    ensures Int8(x + 1) == if x == MAX_INT8 then -128 else x + 1
  {
  }

  /** `combineHandlers`: refuses what the index could not tell from an abort. */
  method CombineHandlers(group: seq<Handler>, handlers: seq<Handler>) returns (r: Option<seq<Handler>>)
    ensures r.Some? <==> |group| + |handlers| < ABORT_INDEX
    ensures r.Some? ==> r.value == group + handlers
  {
    var finalSize := |group| + |handlers|;
    if finalSize >= ABORT_INDEX {
      return None;
    }
    return Some(group + handlers);
  }

  // ---------------------------------------------------------------- what a chain comes to

  /** One step of the index that must not wrap round. */
  function Count(x: Option<int>): Option<int> {
    if x == None || x.value >= MAX_INT8 then None else Some(x.value + 1)
  }

  /** What the rest of a handler does to the index once nothing can start any more. */
  function Settled(acts: Handler, x: Option<int>): Option<int> {
    if acts == [] || x == None then x
    else Settled(acts[1..], if acts[0] == CallNext then Count(x) else Some(ABORT_INDEX))
  }

  /** The index at the end of a loop that starts with handler `i`; none if the request panics. */
  function Outcome(hs: seq<Handler>, i: nat): Option<int>
    requires i <= |hs|
    decreases |hs| - i
  {
    if i == |hs| then Some(|hs|)
    else
      var h := hs[i];
      if h == [] then Outcome(hs, i + 1)
      else Count(Settled(h[1..], if h[0] == CallNext then Outcome(hs, i + 1) else Some(ABORT_INDEX)))
  }

  predicate AbortsFirst(h: Handler) {
    h != [] && h[0] == CallAbort
  }

  /** The first `n` handlers in order. */
  function UpTo(n: nat): seq<nat> {
    seq(n, i => i)
  }

  lemma {:induction false} UpToMore(n: nat)
    ensures UpTo(n + 1) == UpTo(n) + [n]
  {
  }

  lemma {:induction false} SettledStep(h: Handler, k: nat, x: Option<int>)
    requires k < |h|
    ensures Settled(h[k..], x) ==
      if x == None then None else Settled(h[k + 1..], if h[k] == CallNext then Count(x) else Some(ABORT_INDEX))
  {
    assert h[k..][1..] == h[k + 1..];
  }

  lemma {:induction false} NoneSettled(acts: Handler)
    ensures Settled(acts, None) == None
  {
  }

  // ---------------------------------------------------------------- the chain at work

  class Context {
    const handlers: seq<Handler>
    var index: int
    ghost var started: seq<nat>

    constructor (handlers: seq<Handler>)
      ensures this.handlers == handlers && index == -1 && started == []
    {
      this.handlers := handlers;
      index, started := -1, [];
    }

    /** The handler started last is running and has neither passed the chain on nor ended it. */
    ghost predicate Running()
      reads this
    {
      |started| <= |handlers| && started == UpTo(|started|) && index == |started| - 1
    }

    /** Nothing more can start. */
    ghost predicate Over()
      reads this
    {
      |handlers| <= index <= MAX_INT8
    }

    /** The handlers started from number `from` on end with the first one that aborts before anything else,
        or are all there are. */
    ghost predicate StartedFrom(from: nat)
      reads this
    {
      && from <= |started| <= |handlers| && started == UpTo(|started|)
      && (forall j :: from <= j < |started| - 1 ==> !AbortsFirst(handlers[j]))
      && (|started| < |handlers| ==> from < |started| && AbortsFirst(handlers[|started| - 1]))
    }

    method Abort()
      requires |handlers| < ABORT_INDEX
      modifies `index
      ensures Over() && index == ABORT_INDEX
    {
      index := ABORT_INDEX;
    }

    /** Runs the pending handlers; false stands for a panic. While handlers are pending, those from the next
        one to the first that aborts at once start, in order and each once, and the index ends up as their
        actions say. Afterwards nothing starts, and all that happens is that the index is stepped. */
    method Next() returns (ok: bool)
      requires |handlers| < ABORT_INDEX && (Running() || Over())
      modifies this
      ensures old(Over()) ==> started == old(started)
      ensures old(Running()) ==> StartedFrom(old(|started|))
      ensures ok ==> Over()
      ensures
        var r := if old(Over()) then Count(Some(old(index))) else Outcome(handlers, old(|started|));
        ok == r.Some? && (ok ==> r == Some(index))
      decreases |handlers| - |started|, 0
    {
      hide Int8, UpTo, Settled, Outcome;
      Int8Step(index);
      index := Int8(index + 1);
      ghost var from := |started|;
      OutcomeAt(|handlers|);
      while index < |handlers|
        invariant -128 <= index <= MAX_INT8
        invariant old(Over()) ==> started == old(started) && index == Int8(old(index) + 1)
        invariant old(Running()) ==> from <= |started| && started == UpTo(|started|)
        invariant old(Running()) && index < 0 ==> Outcome(handlers, from) == None && StartedFrom(from)
        invariant old(Running()) && 0 <= index < |handlers| ==>
            && index == |started| && Outcome(handlers, from) == Outcome(handlers, index)
            && forall j :: from <= j < |started| ==> !AbortsFirst(handlers[j])
        invariant old(Running()) && index >= |handlers| ==> Outcome(handlers, from) == Some(index) && StartedFrom(from)
        decreases |handlers| - |started|, if index < |handlers| then 1 else 0
      {
        if index < 0 {
          return false;
        }
        OutcomeAt(index);
        UpToMore(|started|);
        started := started + [index];
        ok := RunHandler(index);
        if !ok { return; }
        Int8Step(index);
        index := Int8(index + 1);
      }
      ok := true;
    }

    /** Handler `i` from its start to its return. */
    method RunHandler(i: nat) returns (ok: bool)
      requires |handlers| < ABORT_INDEX && Running() && index == i < |handlers|
      modifies this
      ensures handlers[i] == [] ==> ok && Running() && started == old(started)
      ensures handlers[i] != [] && handlers[i][0] == CallNext ==> StartedFrom(i + 1)
      ensures AbortsFirst(handlers[i]) ==> started == old(started)
      ensures handlers[i] != [] ==> ok == Returned(i).Some? && (ok ==> Returned(i) == Some(index) && Over())
      decreases |handlers| - |started|, 1
    {
      var h := handlers[i];
      for k := 0 to |h|
        invariant k == 0 ==> Running() && started == old(started)
        invariant k > 0 ==> Over() && Settled(h[k..], Some(index)) == Returned(i)
        invariant k > 0 && h[0] == CallNext ==> StartedFrom(i + 1)
        invariant AbortsFirst(h) ==> started == old(started)
      {
        hide UpTo, Outcome, Settled;
        if k > 0 { SettledStep(h, k, Some(index)); }
        if h[k] == CallNext {
          ok := Next();
          if !ok {
            NoneSettled(h[k + 1..]);
            return;
          }
        } else {
          Abort();
        }
      }
      ok := true;
    }

    /** The index with which handler `i` returns once it has done something. */
    ghost function Returned(i: nat): Option<int>
      requires i < |handlers| && handlers[i] != []
    {
      Settled(handlers[i][1..], if handlers[i][0] == CallNext then Outcome(handlers, i + 1) else Some(ABORT_INDEX))
    }

    lemma {:induction false} OutcomeAt(i: nat)
      requires i <= |handlers|
      ensures i == |handlers| ==> Outcome(handlers, i) == Some(i)
      ensures i < |handlers| && handlers[i] == [] ==> Outcome(handlers, i) == Outcome(handlers, i + 1)
      ensures i < |handlers| && handlers[i] != [] ==> Outcome(handlers, i) == Count(Returned(i))
    {
    }

    /** One request: the handlers that start do so in order and each once, up to the first one that aborts
        before anything else, and all of them if there is none. */
    method Serve() returns (ok: bool)
      requires |handlers| < ABORT_INDEX && index == -1 && started == []
      modifies this
      ensures StartedFrom(0)
      ensures ok == Outcome(handlers, 0).Some? && (ok ==> Outcome(handlers, 0) == Some(index))
    {
      ok := Next();
    }
  }

  // ---------------------------------------------------------------- where the index ends

  /** How often a handler calls `Next`. */
  function Nexts(h: Handler): nat {
    if h == [] then 0 else (if h[0] == CallNext then 1 else 0) + Nexts(h[1..])
  }

  function AllNexts(hs: seq<Handler>, i: nat): nat
    requires i <= |hs|
    decreases |hs| - i
  {
    if i == |hs| then 0 else Nexts(hs[i]) + AllNexts(hs, i + 1)
  }

  function Capped(x: int): Option<int> {
    if x <= MAX_INT8 then Some(x) else None
  }

  lemma {:induction false} SettledCounts(acts: Handler, x: int)
    requires CallAbort !in acts
    ensures Settled(acts, Capped(x)) == Capped(x + Nexts(acts))
  {
    if acts != [] {
      assert acts[0] == CallNext;
      if x <= MAX_INT8 {
        SettledCounts(acts[1..], x + 1);
      }
    }
  }

  /** Without an abort the index ends at the length of the chain plus the number of calls of `Next`, and the
      request panics exactly if that is more than an `int8` holds. */
  lemma {:induction false} OutcomeCounts(hs: seq<Handler>, i: nat)
    requires |hs| < ABORT_INDEX && i <= |hs| && forall j :: 0 <= j < |hs| ==> CallAbort !in hs[j]
    ensures Outcome(hs, i) == Capped(|hs| + AllNexts(hs, i))
    decreases |hs| - i
  {
    if i < |hs| {
      OutcomeCounts(hs, i + 1);
      var h := hs[i];
      if h != [] {
        assert h[0] == CallNext;
        SettledCounts(h[1..], |hs| + AllNexts(hs, i + 1));
      }
    }
  }

  lemma {:induction false} PoliteSettled(acts: Handler, x: int, bound: int)
    requires x <= bound && ABORT_INDEX <= bound && bound + Nexts(acts) <= MAX_INT8
    ensures var r := Settled(acts, Some(x)); r.Some? && r.value <= bound + Nexts(acts)
  {
    if acts != [] {
      if acts[0] == CallNext {
        PoliteSettled(acts[1..], x + 1, bound + 1);
      } else {
        PoliteSettled(acts[1..], ABORT_INDEX, bound);
      }
    }
  }

  /** No request panics if no handler calls `Next` more than once, wherever handlers abort. */
  lemma {:induction false} PoliteSafe(hs: seq<Handler>, i: nat)
    requires |hs| < ABORT_INDEX && i <= |hs| && forall j :: 0 <= j < |hs| ==> Nexts(hs[j]) <= 1
    ensures Outcome(hs, i).Some? && Outcome(hs, i).value <= ABORT_INDEX + 1 + |hs| - i
    decreases |hs| - i
  {
    if i < |hs| {
      PoliteSafe(hs, i + 1);
      var h := hs[i];
      if h != [] {
        if h[0] == CallNext {
          PoliteSettled(h[1..], Outcome(hs, i + 1).value, ABORT_INDEX + |hs| - i);
        } else {
          PoliteSettled(h[1..], ABORT_INDEX, ABORT_INDEX);
        }
      }
    }
  }

  /** `IsAborted` after a request in which nobody aborted: true exactly if the chain is long enough and passes
      itself on often enough. */
  lemma {:induction false} AbortedByCounting(hs: seq<Handler>)
    requires |hs| < ABORT_INDEX && forall j :: 0 <= j < |hs| ==> CallAbort !in hs[j]
    requires |hs| + AllNexts(hs, 0) <= MAX_INT8
    ensures Outcome(hs, 0).Some?
    ensures Outcome(hs, 0).value >= ABORT_INDEX <==> |hs| + AllNexts(hs, 0) >= ABORT_INDEX
  {
    OutcomeCounts(hs, 0);
  }
}
