/** The atomic stack that the lock-free stack has to refine: range pushes, pops, and taking
    everything at once, each one indivisible effect between call and return. */
module StackSpec {
  import opened Common

  datatype Label<+T> =
    | Tau
    | CallPush(t: Tid, vs: seq<T>)
    | DoPush(t: Tid, vs: seq<T>)
    | RetPush(t: Tid, accepted: nat)
    | CallPop(t: Tid)
    | DoPop(t: Tid, r: Option<T>)
    | RetPop(t: Tid, r: Option<T>)
    | CallTake(t: Tid, reversed: bool)
    | DoTake(t: Tid)
    | RetTake(t: Tid, visited: seq<T>)

  datatype Status<+T> =
    | Idle
    | PushPending(vs: seq<T>)
    | PushDone(accepted: nat)
    | PopPending
    | PopDone(r: Option<T>)
    | TakePending(reversed: bool)
    | TakeDone(order: seq<T>)

  /** `st[0]` is the top. */
  datatype Spec<T> = Spec(st: seq<T>, status: map<Tid, Status<T>>)

  function Reverse<X>(xs: seq<X>): (ys: seq<X>)
    ensures |ys| == |xs| && forall i :: 0 <= i < |xs| ==> ys[i] == xs[|xs| - 1 - i]
  {
    if xs == [] then [] else Reverse(xs[1..]) + [xs[0]]
  }

  ghost predicate Init<T>(a: Spec<T>) {
    a.st == [] && forall t <- a.status :: a.status[t] == Idle
  }

  /** One step of the atomic stack under label `l`. */
  ghost predicate Next<T(!new)>(a: Spec<T>, l: Label<T>, b: Spec<T>) {
    match l
    case Tau => b == a
    case CallPush(t, vs) => b.st == a.st && vs != [] && Moves(a.status, t, Idle, PushPending(vs), b.status)
    case DoPush(t, ws) =>
      // a non-empty prefix of the range is placed on top, its last element uppermost
      && ws != [] && b.st == Reverse(ws) + a.st
      && exists vs :: ws <= vs && Moves(a.status, t, PushPending(vs), PushDone(|ws|), b.status)
    case RetPush(t, k) =>
      b.st == a.st && (if k > 0 then Moves(a.status, t, PushDone(k), Idle, b.status) else exists vs :: Moves(a.status, t, PushPending(vs), Idle, b.status))
    case CallPop(t) => b.st == a.st && Moves(a.status, t, Idle, PopPending, b.status)
    case DoPop(t, r) => a.st == (if r.Some? then [r.value] else []) + b.st && (r.None? ==> a.st == []) && Moves(a.status, t, PopPending, PopDone(r), b.status)
    case RetPop(t, r) => b.st == a.st && Moves(a.status, t, PopDone(r), Idle, b.status)
    case CallTake(t, rev) => b.st == a.st && Moves(a.status, t, Idle, TakePending(rev), b.status)
    case DoTake(t) =>
      b.st == [] && exists rev :: Moves(a.status, t, TakePending(rev), TakeDone(if rev then Reverse(a.st) else a.st), b.status)
    case RetTake(t, vs) => b.st == a.st && Moves(a.status, t, TakeDone(vs), Idle, b.status)
  }

  ghost predicate IsRun<T(!new)>(run: seq<Spec<T>>, labels: seq<Label<T>>) {
    && |run| == |labels| + 1
    && Init(run[0])
    && forall i :: 0 <= i < |labels| ==> Next(run[i], labels[i], run[i + 1])
  }

  function Added<T>(l: Label<T>): seq<T> {
    if l.DoPush? then l.vs else []
  }

  function Taken<T>(a: Spec<T>, l: Label<T>): seq<T> {
    if l.DoPop? && l.r.Some? then [l.r.value] else if l.DoTake? then a.st else []
  }

  /** The values pushed during a run, in order. */
  ghost function Pushed<T>(labels: seq<Label<T>>): seq<T> {
    if labels == [] then [] else Pushed(labels[..|labels| - 1]) + Added(labels[|labels| - 1])
  }

  /** The values removed during a run, one at a time or all at once. */
  ghost function Removed<T>(run: seq<Spec<T>>, labels: seq<Label<T>>): seq<T>
    requires |run| > |labels|
  {
    if labels == [] then []
    else Removed(run, labels[..|labels| - 1]) + Taken(run[|labels| - 1], labels[|labels| - 1])
  }

  lemma {:induction false} RemovedLocal<T>(run: seq<Spec<T>>, labels: seq<Label<T>>)
    requires |run| > |labels| + 1
    ensures Removed(run[..|labels| + 1], labels) == Removed(run, labels)
  {
    if labels != [] {
      var n := |labels| - 1;
      RemovedLocal(run, labels[..n]);
      RemovedLocal(run[..|labels| + 1], labels[..n]);
      assert run[..|labels| + 1][..n + 1] == run[..n + 1];
    }
  }

  /** Nothing is lost, invented or duplicated: over every run what was pushed is what was removed and
      what is still there. */
  lemma {:induction false} Conserved<T(!new)>(run: seq<Spec<T>>, labels: seq<Label<T>>)
    requires IsRun(run, labels)
    ensures multiset(Pushed(labels)) == multiset(Removed(run, labels)) + multiset(run[|labels|].st)
    decreases |labels|
  {
    hide Next, Added, Taken;
    if labels != [] {
      hide IsRun, Pushed, Removed;
      var n := |labels| - 1;
      RunPrefix(run, labels);
      Conserved(run[..n + 1], labels[..n]);
      RemovedLocal(run, labels[..n]);
      StepConserves(run[n], labels[n], run[n + 1]);
      LastStep(run, labels);
      Combine(Pushed(labels[..n]), Added(labels[n]), Removed(run, labels[..n]), Taken(run[n], labels[n]),
              run[n].st, run[n + 1].st);
    }
  }

  lemma {:induction false} Combine<T>(p: seq<T>, a: seq<T>, r: seq<T>, x: seq<T>, s: seq<T>, t: seq<T>)
    requires multiset(p) == multiset(r) + multiset(s) && multiset(s) + multiset(a) == multiset(x) + multiset(t)
    ensures multiset(p + a) == multiset(r + x) + multiset(t)
  {
    calc {
      multiset(p + a);
      multiset(r) + multiset(s) + multiset(a);
      multiset(r) + (multiset(s) + multiset(a));
      multiset(r) + (multiset(x) + multiset(t));
      multiset(r + x) + multiset(t);
    }
  }

  lemma {:induction false} LastStep<T>(run: seq<Spec<T>>, labels: seq<Label<T>>)
    requires labels != [] && |run| > |labels|
    ensures var n := |labels| - 1;
      && Pushed(labels) == Pushed(labels[..n]) + Added(labels[n])
      && Removed(run, labels) == Removed(run, labels[..n]) + Taken(run[n], labels[n])
  {
  }

  lemma {:induction false} RunPrefix<T(!new)>(run: seq<Spec<T>>, labels: seq<Label<T>>)
    requires IsRun(run, labels) && labels != []
    ensures var n := |labels| - 1;
      |run| == n + 2 && IsRun(run[..n + 1], labels[..n]) && Next(run[n], labels[n], run[n + 1])
  {
  }

  lemma {:induction false} StepConserves<T(!new)>(a: Spec<T>, l: Label<T>, b: Spec<T>)
    requires Next(a, l, b)
    ensures multiset(a.st) + multiset(Added(l)) == multiset(Taken(a, l)) + multiset(b.st)
  {
    if l.DoPush? {
      ReverseSame(l.vs);
    }
  }

  lemma {:induction false} ReverseSame<X>(xs: seq<X>)
    ensures multiset(Reverse(xs)) == multiset(xs)
  {
    if xs != [] {
      ReverseSame(xs[1..]);
      assert xs == [xs[0]] + xs[1..];
    }
  }
}
