/** The atomic FIFO queue that the lock-free queue has to refine.

    Every operation is a call, one indivisible effect between call and return, and a return.
    A `pop` may answer "empty" only if the queue was empty at some moment after its call
    (`sawEmpty`). Labels are shared with the concrete machine, so a refinement preserves calls,
    returns and the order of effects. */
module QueueSpec {
  import opened Common

  datatype Label<+T> =
    | Tau
    | CallPush(t: Tid, v: T)
    | CallPop(t: Tid)
    | DoPush(t: Tid, v: T)
    | DoPop(t: Tid, v: T)
    | RetPush(t: Tid, ok: bool)
    | RetPop(t: Tid, result: Option<T>)

  datatype Status<+T> =
    | Idle
    | PushPending(v: T)
    | PushDone
    | PopPending(sawEmpty: bool)
    | PopDone(v: T)

  datatype Spec<T> = Spec(q: seq<T>, status: map<Tid, Status<T>>)

  ghost predicate Init<T>(a: Spec<T>) {
    a.q == [] && forall t <- a.status :: a.status[t] == Idle
  }

  /** One step of the atomic queue under label `l`. */
  ghost predicate Next<T(!new)>(a: Spec<T>, l: Label<T>, b: Spec<T>) {
    match l
    case CallPush(t, v) => b.q == a.q && Moves(a.status, t, Idle, PushPending(v), b.status)
    case CallPop(t) => b.q == a.q && Moves(a.status, t, Idle, PopPending(false), b.status)
    case DoPush(t, v) => b.q == a.q + [v] && Moves(a.status, t, PushPending(v), PushDone, b.status)
    case DoPop(t, v) => a.q == [v] + b.q && exists saw :: Moves(a.status, t, PopPending(saw), PopDone(v), b.status)
    case RetPush(t, ok) =>
      b.q == a.q && (if ok then Moves(a.status, t, PushDone, Idle, b.status) else exists v :: Moves(a.status, t, PushPending(v), Idle, b.status))
    case RetPop(t, Some(v)) => b.q == a.q && Moves(a.status, t, PopDone(v), Idle, b.status)
    case RetPop(t, None) => b.q == a.q && Moves(a.status, t, PopPending(true), Idle, b.status)
    case Tau =>
      // nothing happens, a pop observes that the queue is empty now, or it forgets what it observed
      b.q == a.q && (b == a || exists t, saw, saw' :: Moves(a.status, t, PopPending(saw), PopPending(saw'), b.status) && (saw' ==> a.q == []))
  }

  ghost predicate IsRun<T(!new)>(run: seq<Spec<T>>, labels: seq<Label<T>>) {
    && |run| == |labels| + 1
    && Init(run[0])
    && forall i :: 0 <= i < |labels| ==> Next(run[i], labels[i], run[i + 1])
  }

  /** The values whose pushes took effect, in order of effect. */
  ghost function Pushed<T>(labels: seq<Label<T>>): seq<T> {
    if labels == [] then []
    else
      var l := labels[|labels| - 1];
      Pushed(labels[..|labels| - 1]) + if l.DoPush? then [l.v] else []
  }

  /** The values whose pops took effect, in order of effect. */
  ghost function Popped<T>(labels: seq<Label<T>>): seq<T> {
    if labels == [] then []
    else
      var l := labels[|labels| - 1];
      Popped(labels[..|labels| - 1]) + if l.DoPop? then [l.v] else []
  }

  /** First in, first out, nothing lost or invented: over every run the values pushed are the
      values popped followed by the values still queued. */
  lemma {:induction false} Fifo<T(!new)>(run: seq<Spec<T>>, labels: seq<Label<T>>)
    requires IsRun(run, labels)
    ensures Pushed(labels) == Popped(labels) + run[|labels|].q
    decreases |labels|
  {
    if labels != [] {
      var n := |labels| - 1;
      var init := labels[..n];
      assert IsRun(run[..n + 1], init);
      Fifo(run[..n + 1], init);
      assert Next(run[n], labels[n], run[n + 1]);
      calc {
        Popped(labels) + run[n + 1].q;
        Popped(init) + (if labels[n].DoPop? then [labels[n].v] else []) + run[n + 1].q;
        Popped(init) + ((if labels[n].DoPop? then [labels[n].v] else []) + run[n + 1].q);
      }
    }
  }
}
