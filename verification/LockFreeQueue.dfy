/** The Michael-Scott queue of boost::lockfree, one atomic access per step, any number of threads.

    Handles are natural numbers, 0 is the null handle. Every atomic word is a handle with a tag.
    Tags are unbounded and memory is sequentially consistent. The node pool is abstract: it hands
    out handles nobody owns, may overwrite free nodes at will, and never lowers the tag stored in
    a node's `next`. Nodes are never unmapped, so stale reads stay possible.

    `chain` and `sawEmpty` are auxiliary: no step reads them to decide anything. `chain` lists the
    nodes reachable from `head` (see `Linked`), `sawEmpty` records whether the queue held no
    element at a pop's load of `next`. */
module LockFreeQueue {
  import opened Common
  import opened QueueSpec

  datatype Node<T> = Node(next: Tagged, data: T)

  /** Where a thread is inside `do_push` or `pop`, with its local variables. */
  datatype Local<T> =
    | Ready
    | PushConstruct(v: T)
    | PushInitLoad(v: T, n: Handle)
    | PushInitStore(v: T, n: Handle, was: Tagged)
    | PushLoadTail(v: T, n: Handle)
    | PushLoadNext(v: T, n: Handle, tail: Tagged)
    | PushCheckTail(v: T, n: Handle, tail: Tagged, next: Tagged)
    | PushHelp(v: T, n: Handle, tail: Tagged, next: Tagged)
    | PushCasNext(v: T, n: Handle, tail: Tagged, next: Tagged)
    | PushCasTail(tail: Tagged, next: Tagged)
    | PushFailed(v: T)
    | PushReturn
    | PopLoadHead
    | PopLoadTail(head: Tagged)
    | PopLoadNext(head: Tagged, tail: Tagged)
    | PopCheckHead(head: Tagged, tail: Tagged, next: Tagged, sawEmpty: bool)
    | PopHelp(tail: Tagged, next: Tagged)
    | PopCopy(head: Tagged, next: Tagged)
    | PopCasHead(head: Tagged, next: Tagged, ret: T)
    | PopDestruct(head: Tagged, ret: T)
    | PopReturn(result: Option<T>)

  datatype State<T> = State(
    head: Tagged,
    tail: Tagged,
    mem: map<Handle, Node<T>>,
    free: set<Handle>,
    threads: map<Tid, Local<T>>,
    chain: seq<Handle>)

  // ---------------------------------------------------------------- steps

  ghost predicate Init<T(!new)>(s: State<T>) {
    && s.threads.Values <= {Ready}
    && exists d: Handle, x: T :: d != 0 && InitWith(s, d, x)
  }

  ghost predicate InitWith<T>(s: State<T>, d: Handle, x: T) {
    && s.mem == map[d := Node(Tagged(0, 0), x)]
    && s.head == s.tail == Tagged(d, 0)
    && s.free == {}
    && s.chain == [d]
  }

  function Goto<T>(s: State<T>, t: Tid, l: Local<T>): State<T> {
    s.(threads := s.threads[t := l])
  }

  /** `tail_.compare_exchange_strong(tail, {next.ptr, tail.tag + 1})`. */
  function SwingTail<T>(s: State<T>, tail: Tagged, target: Handle): State<T> {
    if s.tail == tail then s.(tail := Tagged(target, tail.tag + 1)) else s
  }

  /** After a successful `tail_node->next.compare_exchange_weak(next, {n, next.tag + 1})`. */
  function AppendState<T>(s: State<T>, t: Tid, n: Handle, tail: Tagged, next: Tagged): State<T>
    requires tail.ptr in s.mem
  {
    var new_tail_next := Tagged(n, next.tag + 1);
    Goto(s, t, PushCasTail(tail, new_tail_next)).(
      mem := s.mem[tail.ptr := s.mem[tail.ptr].(next := new_tail_next)],
      chain := s.chain + [n])
  }

  /** After a successful `head_.compare_exchange_weak(head, {next.ptr, head.tag + 1})`. */
  function AdvanceState<T>(s: State<T>, t: Tid, head: Tagged, next: Tagged, ret: T): State<T> {
    Goto(s, t, PopDestruct(head, ret)).(
      head := Tagged(next.ptr, head.tag + 1),
      chain := if s.chain == [] then [] else s.chain[1..])
  }

  /** The pool rewrites a free node, or maps a new one, without lowering the tag of `next`. */
  ghost predicate PoolStep<T(!new)>(s: State<T>, s': State<T>) {
    exists h: Handle, x: Node<T> ::
      && h != 0
      && (h in s.mem ==> h in s.free && s.mem[h].next.tag <= x.next.tag)
      && s' == s.(mem := s.mem[h := x], free := s.free + {h})
  }

  ghost predicate PushStep<T(!new)>(s: State<T>, t: Tid, l: Label<T>, s': State<T>)
    requires t in s.threads
  {
    match s.threads[t]
    case Ready => l.CallPush? && l.t == t && s' == Goto(s, t, PushConstruct(l.v))
    case PushConstruct(v) =>
      && l == Tau
      && (|| s' == Goto(s, t, PushFailed(v))  // the pool is exhausted
          || exists h :: h in s.free && h in s.mem &&
                s' == Goto(s, t, PushInitLoad(v, h)).(free := s.free - {h}, mem := s.mem[h := s.mem[h].(data := v)]))
    case PushInitLoad(v, n) => l == Tau && n in s.mem && s' == Goto(s, t, PushInitStore(v, n, s.mem[n].next))
    case PushInitStore(v, n, was) =>
      && l == Tau && n in s.mem
      && s' == Goto(s, t, PushLoadTail(v, n)).(mem := s.mem[n := s.mem[n].(next := Tagged(0, was.tag + 1))])
    case PushLoadTail(v, n) => l == Tau && s' == Goto(s, t, PushLoadNext(v, n, s.tail))
    case PushLoadNext(v, n, tail) =>
      l == Tau && tail.ptr in s.mem && s' == Goto(s, t, PushCheckTail(v, n, tail, s.mem[tail.ptr].next))
    case PushCheckTail(v, n, tail, next) =>
      && l == Tau
      && s' == Goto(s, t, if s.tail != tail then PushLoadTail(v, n)
                          else if next.ptr == 0 then PushCasNext(v, n, tail, next)
                          else PushHelp(v, n, tail, next))
    case PushHelp(v, n, tail, next) => l == Tau && s' == Goto(SwingTail(s, tail, next.ptr), t, PushLoadTail(v, n))
    case PushCasNext(v, n, tail, next) =>
      if l.DoPush? then
        && l == DoPush(t, v) && tail.ptr in s.mem && s.mem[tail.ptr].next == next
        && s' == AppendState(s, t, n, tail, next)
      else  // the exchange failed, possibly spuriously
        l == Tau && s' == Goto(s, t, PushLoadTail(v, n))
    case PushCasTail(tail, next) => l == Tau && s' == Goto(SwingTail(s, tail, next.ptr), t, PushReturn)
    case PushFailed(_) => l == RetPush(t, false) && s' == Goto(s, t, Ready)
    case PushReturn => l == RetPush(t, true) && s' == Goto(s, t, Ready)
    case _ => false
  }

  ghost predicate PopStep<T(!new)>(s: State<T>, t: Tid, l: Label<T>, s': State<T>)
    requires t in s.threads
  {
    match s.threads[t]
    case Ready => l == CallPop(t) && s' == Goto(s, t, PopLoadHead)
    case PopLoadHead => l == Tau && s' == Goto(s, t, PopLoadTail(s.head))
    case PopLoadTail(head) => l == Tau && s' == Goto(s, t, PopLoadNext(head, s.tail))
    case PopLoadNext(head, tail) =>
      l == Tau && head.ptr in s.mem && s' == Goto(s, t, PopCheckHead(head, tail, s.mem[head.ptr].next, |s.chain| == 1))
    case PopCheckHead(head, tail, next, sawEmpty) =>
      && l == Tau
      && s' == Goto(s, t, if s.head != head then PopLoadHead
                          else if head.ptr == tail.ptr then
                            if next.ptr == 0 then PopReturn(None) else PopHelp(tail, next)
                          else if next.ptr == 0 then PopLoadHead
                          else PopCopy(head, next))
    case PopHelp(tail, next) => l == Tau && s' == Goto(SwingTail(s, tail, next.ptr), t, PopLoadHead)
    case PopCopy(head, next) => l == Tau && next.ptr in s.mem && s' == Goto(s, t, PopCasHead(head, next, s.mem[next.ptr].data))
    case PopCasHead(head, next, ret) =>
      if l.DoPop? then
        && l == DoPop(t, ret) && s.head == head
        && s' == AdvanceState(s, t, head, next, ret)
      else
        l == Tau && s' == Goto(s, t, PopLoadHead)
    case PopDestruct(head, ret) => l == Tau && s' == Goto(s, t, PopReturn(Some(ret))).(free := s.free + {head.ptr})
    case PopReturn(result) => l == RetPop(t, result) && s' == Goto(s, t, Ready)
    case _ => false
  }

  ghost predicate Next<T(!new)>(s: State<T>, l: Label<T>, s': State<T>) {
    || (l == Tau && PoolStep(s, s'))
    || exists t :: t in s.threads && (PushStep(s, t, l, s') || PopStep(s, t, l, s'))
  }

  ghost predicate IsRun<T(!new)>(run: seq<State<T>>, labels: seq<Label<T>>) {
    && |run| == |labels| + 1
    && Init(run[0])
    && forall i :: 0 <= i < |labels| ==> Next(run[i], labels[i], run[i + 1])
  }

  // ---------------------------------------------------------------- invariant

  function Last<X>(xs: seq<X>): X
    requires xs != []
  {
    xs[|xs| - 1]
  }

  /** `chain` is exactly the null-terminated list that starts at `head_`. */
  ghost predicate Linked<T>(s: State<T>) {
    && s.chain != [] && s.chain[0] == s.head.ptr
    && Distinct(s.chain)
    && 0 !in s.mem
    && (forall i :: 0 <= i < |s.chain| ==> s.chain[i] in s.mem)
    && (forall i :: 0 <= i < |s.chain| - 1 ==> s.mem[s.chain[i]].next.ptr == s.chain[i + 1])
    && s.mem[Last(s.chain)].next.ptr == 0
  }

  /** `tail_` is reachable from `head_` and at most one node behind the end. */
  ghost predicate TailNearEnd<T>(s: State<T>)
    requires s.chain != []
  {
    s.tail.ptr == Last(s.chain) || (|s.chain| >= 2 && s.tail.ptr == s.chain[|s.chain| - 2])
  }

  /** The node a thread holds privately, as a set of at most one handle. */
  function Owned<T>(l: Local<T>): set<Handle> {
    match l
    case PushInitLoad(_, n) => {n}
    case PushInitStore(_, n, _) => {n}
    case PushLoadTail(_, n) => {n}
    case PushLoadNext(_, n, _) => {n}
    case PushCheckTail(_, n, _, _) => {n}
    case PushHelp(_, n, _, _) => {n}
    case PushCasNext(_, n, _, _) => {n}
    case PopDestruct(head, _) => {head.ptr}
    case _ => {}
  }

  /** Free nodes, queued nodes and nodes held by different threads are all different. */
  ghost predicate Ownership<T>(s: State<T>) {
    && s.free <= s.mem.Keys
    && (forall i :: 0 <= i < |s.chain| ==> s.chain[i] !in s.free)
    && (forall t <- s.threads :: Private(s, s.threads[t]))
    && (forall t, u :: t in s.threads && u in s.threads && t != u ==> Owned(s.threads[t]) !! Owned(s.threads[u]))
  }

  ghost predicate Private<T>(s: State<T>, l: Local<T>) {
    && Owned(l) <= s.mem.Keys
    && Owned(l) !! s.free
    && forall i :: 0 <= i < |s.chain| ==> s.chain[i] !in Owned(l)
  }

  /** `x` was read from `now`: tags only grow, and an unchanged tag means an unchanged word. */
  predicate Seen(x: Tagged, now: Tagged) {
    x.tag <= now.tag && (x.tag == now.tag ==> x == now)
  }

  /** While `tail_` is still `tail`, its node links to `target`. */
  ghost predicate MaySwing<T>(s: State<T>, tail: Tagged, target: Handle) {
    && Seen(tail, s.tail)
    && (tail == s.tail ==> target != 0 && tail.ptr in s.mem && s.mem[tail.ptr].next.ptr == target)
  }

  ghost predicate NewNode<T>(s: State<T>, v: T, n: Handle) {
    n in s.mem && s.mem[n].data == v && s.mem[n].next.ptr == 0
  }

  ghost predicate TailSeen<T>(s: State<T>, tail: Tagged) {
    Seen(tail, s.tail) && tail.ptr in s.mem
  }

  ghost predicate HeadSeen<T>(s: State<T>, head: Tagged) {
    Seen(head, s.head) && head.ptr in s.mem
  }

  /** While `head_` is still `head`, `next` is the second node and `tail_` has left the first. */
  ghost predicate MayAdvance<T>(s: State<T>, head: Tagged, next: Tagged) {
    && HeadSeen(s, head) && next.ptr in s.mem
    && (head == s.head ==> |s.chain| >= 2 && s.chain[1] == next.ptr && s.tail.ptr != head.ptr)
  }

  /** What a thread knows at each point of `do_push` and `pop`. */
  ghost predicate Knows<T>(s: State<T>, l: Local<T>)
    requires s.chain != []
  {
    match l
    case PushInitLoad(v, n) => n in s.mem && s.mem[n].data == v
    case PushInitStore(v, n, was) => n in s.mem && s.mem[n].data == v && s.mem[n].next == was
    case PushLoadTail(v, n) => NewNode(s, v, n)
    case PushLoadNext(v, n, tail) => NewNode(s, v, n) && TailSeen(s, tail)
    case PushCheckTail(v, n, tail, next) =>
      && NewNode(s, v, n) && TailSeen(s, tail)
      && next.tag <= s.mem[tail.ptr].next.tag
      && (tail == s.tail && next.ptr != 0 ==> s.mem[tail.ptr].next.ptr == next.ptr)
      && (tail == s.tail && next.ptr == 0 && next.tag == s.mem[tail.ptr].next.tag ==> tail.ptr == Last(s.chain))
    case PushHelp(v, n, tail, next) => NewNode(s, v, n) && MaySwing(s, tail, next.ptr)
    case PushCasNext(v, n, tail, next) =>
      && NewNode(s, v, n) && TailSeen(s, tail)
      && next.ptr == 0 && next.tag <= s.mem[tail.ptr].next.tag
      && (next.tag == s.mem[tail.ptr].next.tag ==> tail.ptr == s.tail.ptr == Last(s.chain))
    case PushCasTail(tail, next) => MaySwing(s, tail, next.ptr)
    case PopLoadTail(head) => HeadSeen(s, head)
    case PopLoadNext(head, tail) =>
      && HeadSeen(s, head) && TailSeen(s, tail)
      && (head == s.head && head.ptr != tail.ptr ==> s.tail.ptr != head.ptr)
    case PopCheckHead(head, tail, next, sawEmpty) =>
      && HeadSeen(s, head) && TailSeen(s, tail)
      && (head == s.head && head.ptr != tail.ptr ==> next.ptr != 0 && s.tail.ptr != head.ptr)
      && (head == s.head && next.ptr != 0 ==> s.mem[head.ptr].next.ptr == next.ptr)
      && (head.ptr == tail.ptr && next.ptr != 0 && tail == s.tail ==> s.mem[tail.ptr].next.ptr == next.ptr)
      && (head == s.head && next.ptr == 0 ==> sawEmpty)
    case PopHelp(tail, next) => MaySwing(s, tail, next.ptr)
    case PopCopy(head, next) => MayAdvance(s, head, next)
    case PopCasHead(head, next, ret) => MayAdvance(s, head, next) && (head == s.head ==> s.mem[next.ptr].data == ret)
    case _ => true
  }

  ghost predicate Inv<T>(s: State<T>) {
    && Linked(s)
    && TailNearEnd(s)
    && Ownership(s)
    && forall t <- s.threads :: Knows(s, s.threads[t])
  }

  // ---------------------------------------------------------------- how the shared state changes

  /** Nodes stay mapped, tags of `next` never fall. */
  ghost predicate MemGrows<T>(s: State<T>, s': State<T>) {
    && s.mem.Keys <= s'.mem.Keys
    && forall h <- s.mem :: s.mem[h].next.tag <= s'.mem[h].next.tag
  }

  ghost predicate KeepsChainNodes<T>(s: State<T>, s': State<T>, upto: nat)
    requires upto <= |s.chain|
  {
    forall i :: 0 <= i < upto ==> s.chain[i] in s.mem && s.chain[i] in s'.mem && s'.mem[s.chain[i]] == s.mem[s.chain[i]]
  }

  ghost predicate Quiet<T>(s: State<T>, s': State<T>) {
    s'.head == s.head && s'.tail == s.tail && s'.chain == s.chain && KeepsChainNodes(s, s', |s.chain|)
  }

  ghost predicate Swings<T>(s: State<T>, s': State<T>)
    requires s.chain != []
  {
    && s'.head == s.head && s'.chain == s.chain && s'.mem == s.mem
    && s.tail.ptr != Last(s.chain) && s'.tail == Tagged(Last(s.chain), s.tail.tag + 1)
  }

  ghost predicate Appends<T>(s: State<T>, s': State<T>)
    requires s.chain != []
  {
    var e := Last(s.chain);
    && s'.head == s.head && s'.tail == s.tail && s.tail.ptr == e
    && |s'.chain| == |s.chain| + 1 && s'.chain[..|s.chain|] == s.chain
    && KeepsChainNodes(s, s', |s.chain| - 1)
    && e in s.mem && e in s'.mem
    && s'.mem[e].next == Tagged(Last(s'.chain), s.mem[e].next.tag + 1) && s'.mem[e].data == s.mem[e].data
  }

  ghost predicate Advances<T>(s: State<T>, s': State<T>)
    requires s.chain != []
  {
    && |s.chain| >= 2 && s'.mem == s.mem && s'.tail == s.tail && s.tail.ptr != s.head.ptr
    && s'.chain == s.chain[1..] && s'.head == Tagged(s.chain[1], s.head.tag + 1)
  }

  ghost predicate SharedStep<T>(s: State<T>, s': State<T>)
    requires s.chain != []
  {
    MemGrows(s, s') && (Quiet(s, s') || Swings(s, s') || Appends(s, s') || Advances(s, s'))
  }

  ghost predicate KeepsOwned<T>(s: State<T>, s': State<T>, l: Local<T>) {
    forall h <- Owned(l) :: h in s.mem && h in s'.mem && s'.mem[h] == s.mem[h]
  }

  /** Nothing a thread knows of the queue changes. */
  lemma QuietKnows<T>(s: State<T>, s': State<T>, l: Local<T>)
    requires Linked(s) && TailNearEnd(s) && Linked(s')
    requires MemGrows(s, s') && Quiet(s, s') && KeepsOwned(s, s', l) && Knows(s, l)
    ensures Knows(s', l)
  {
  }

  /** `tail_` gets a new tag: what was known while it was the old word is not asked for any more. */
  lemma SwingKnows<T>(s: State<T>, s': State<T>, l: Local<T>)
    requires Linked(s) && TailNearEnd(s) && Linked(s')
    requires Swings(s, s') && Knows(s, l)
    ensures Knows(s', l)
  {
  }

  /** The last node's link gets a new tag, and the tail still points to it. */
  lemma AppendKnows<T>(s: State<T>, s': State<T>, l: Local<T>)
    requires Linked(s) && TailNearEnd(s) && Linked(s')
    requires MemGrows(s, s') && Appends(s, s') && KeepsOwned(s, s', l) && Knows(s, l)
    ensures Knows(s', l)
  {
    assert forall i :: 0 <= i < |s.chain| ==> s'.chain[i] == s'.chain[..|s.chain|][i];
  }

  /** `head_` gets a new tag. */
  lemma AdvanceKnows<T>(s: State<T>, s': State<T>, l: Local<T>)
    requires Linked(s) && TailNearEnd(s) && Linked(s')
    requires Advances(s, s') && Knows(s, l)
    ensures Knows(s', l)
  {
  }

  /** A thread's knowledge survives every step of the others: here the tags do their work. */
  lemma KnowsStable<T>(s: State<T>, s': State<T>, l: Local<T>)
    requires Linked(s) && TailNearEnd(s) && Linked(s')
    requires SharedStep(s, s') && KeepsOwned(s, s', l)
    requires Knows(s, l)
    ensures Knows(s', l)
  {
    hide MemGrows, Quiet, Swings, Appends, Advances, KeepsOwned, Knows, TailNearEnd;
    if Quiet(s, s') {
      QuietKnows(s, s', l);
    } else if Swings(s, s') {
      SwingKnows(s, s', l);
    } else if Appends(s, s') {
      AppendKnows(s, s', l);
    } else {
      AdvanceKnows(s, s', l);
    }
  }

  // ---------------------------------------------------------------- every step keeps the invariant

  /** Collects what a step of thread `t` owes: its own facts, and that it touches no other thread's node. */
  lemma StepKeepsInv<T>(s: State<T>, t: Tid, s': State<T>)
    requires Inv(s) && t in s.threads && t in s'.threads && s'.threads == s.threads[t := s'.threads[t]]
    requires Linked(s') && TailNearEnd(s') && SharedStep(s, s')
    requires s'.free <= s'.mem.Keys && forall i :: 0 <= i < |s'.chain| ==> s'.chain[i] !in s'.free
    requires Private(s', s'.threads[t]) && Knows(s', s'.threads[t])
    requires forall u <- s.threads :: u != t ==>
      Private(s', s.threads[u]) && KeepsOwned(s, s', s.threads[u]) && Owned(s.threads[u]) !! Owned(s'.threads[t])
    ensures Inv(s')
  {
    forall u <- s.threads | u != t
      ensures Knows(s', s'.threads[u])
    {
      KnowsStable(s, s', s.threads[u]);
    }
  }

  /** Steps that only move the thread's own control point. */
  lemma LocalStepKeepsInv<T>(s: State<T>, t: Tid, l: Local<T>)
    requires Inv(s) && t in s.threads && Owned(l) <= Owned(s.threads[t]) && Knows(s, l)
    ensures Inv(Goto(s, t, l))
  {
    var s' := Goto(s, t, l);
    assert Knows(s', l);
    StepKeepsInv(s, t, s');
  }

  /** Steps to a control point that knows nothing and owns nothing. */
  lemma PlainStepKeepsInv<T>(s: State<T>, t: Tid, l: Local<T>)
    requires Inv(s) && t in s.threads && (l.Ready? || l.PushConstruct? || l.PushFailed? || l.PopLoadHead?)
    ensures Inv(Goto(s, t, l))
  {
    LocalStepKeepsInv(s, t, l);
  }

  lemma SwingShape<T>(s: State<T>, t: Tid, tail: Tagged, target: Handle, l: Local<T>)
    requires Linked(s) && TailNearEnd(s) && MaySwing(s, tail, target)
    ensures var s' := Goto(SwingTail(s, tail, target), t, l);
      Linked(s') && TailNearEnd(s') && SharedStep(s, s') && s'.chain == s.chain && s'.mem == s.mem && s'.free == s.free
  {
    if s.tail == tail {
      assert s.tail.ptr == s.chain[|s.chain| - 2];
      assert Swings(s, Goto(SwingTail(s, tail, target), t, l));
    }
  }

  lemma SwingKeepsInv<T>(s: State<T>, t: Tid, tail: Tagged, target: Handle, l: Local<T>)
    requires Inv(s) && t in s.threads
    requires match s.threads[t]
      case PushHelp(v, n, tl, next) => tl == tail && next.ptr == target && l == PushLoadTail(v, n)
      case PushCasTail(tl, next) => tl == tail && next.ptr == target && l == PushReturn
      case PopHelp(tl, next) => tl == tail && next.ptr == target && l == PopLoadHead
      case _ => false
    ensures Inv(Goto(SwingTail(s, tail, target), t, l))
  {
    var s' := Goto(SwingTail(s, tail, target), t, l);
    assert Knows(s, s.threads[t]) && MaySwing(s, tail, target) && Private(s, s.threads[t]);
    hide Linked, TailNearEnd, SharedStep, SwingTail;
    SwingShape(s, t, tail, target, l);
    StepKeepsInv(s, t, s');
  }

  lemma ConstructKeepsInv<T>(s: State<T>, t: Tid, v: T, h: Handle)
    requires Inv(s) && t in s.threads && s.threads[t] == PushConstruct(v) && h in s.free
    ensures Inv(Goto(s, t, PushInitLoad(v, h)).(free := s.free - {h}, mem := s.mem[h := s.mem[h].(data := v)]))
  {
    var s' := Goto(s, t, PushInitLoad(v, h)).(free := s.free - {h}, mem := s.mem[h := s.mem[h].(data := v)]);
    assert Quiet(s, s');
    assert forall u <- s.threads :: Private(s, s.threads[u]);
    StepKeepsInv(s, t, s');
  }

  lemma InitStoreKeepsInv<T>(s: State<T>, t: Tid, v: T, n: Handle, was: Tagged)
    requires Inv(s) && t in s.threads && s.threads[t] == PushInitStore(v, n, was) && n in s.mem
    ensures Inv(Goto(s, t, PushLoadTail(v, n)).(mem := s.mem[n := s.mem[n].(next := Tagged(0, was.tag + 1))]))
  {
    var s' := Goto(s, t, PushLoadTail(v, n)).(mem := s.mem[n := s.mem[n].(next := Tagged(0, was.tag + 1))]);
    assert Private(s, s.threads[t]) && Knows(s, s.threads[t]) && n in Owned(s.threads[t]);
    assert Quiet(s, s');
    forall u <- s.threads | u != t
      ensures Private(s', s.threads[u]) && n !in Owned(s.threads[u])
    {
      assert Private(s, s.threads[u]) && Owned(s.threads[u]) !! Owned(s.threads[t]);
    }
    StepKeepsInv(s, t, s');
  }

  /** The list after push's exchange on the last node: one node longer, `tail_` one behind. */
  lemma AppendShape<T>(s: State<T>, t: Tid, v: T, n: Handle, tail: Tagged, next: Tagged, s': State<T>)
    requires Inv(s) && t in s.threads && s.threads[t] == PushCasNext(v, n, tail, next)
    requires tail.ptr in s.mem && s.mem[tail.ptr].next == next
    requires s' == AppendState(s, t, n, tail, next)
    ensures Linked(s') && TailNearEnd(s') && Appends(s, s') && Last(s'.chain) == n && s'.mem[n].data == v
  {
    assert Private(s, s.threads[t]) && Knows(s, s.threads[t]) && n in Owned(s.threads[t]);
    assert forall i :: 0 <= i < |s.chain| ==> s'.chain[i] == s.chain[i];
    assert s'.chain[..|s.chain|] == s.chain;
  }

  /** The linearization point of push: the exchange can only succeed on the current last node. */
  lemma AppendKeepsInv<T>(s: State<T>, t: Tid, v: T, n: Handle, tail: Tagged, next: Tagged, s': State<T>)
    requires Inv(s) && t in s.threads && s.threads[t] == PushCasNext(v, n, tail, next)
    requires tail.ptr in s.mem && s.mem[tail.ptr].next == next
    requires s' == AppendState(s, t, n, tail, next)
    ensures Inv(s') && Appends(s, s') && Last(s'.chain) == n && s'.mem[n].data == v
  {
    AppendShape(s, t, v, n, tail, next, s');
    forall u <- s.threads | u != t
      ensures Private(s', s.threads[u]) && KeepsOwned(s, s', s.threads[u])
    {
      assert Private(s, s.threads[u]) && Owned(s.threads[u]) !! Owned(s.threads[t]) && n in Owned(s.threads[t]);
    }
    assert Private(s, s.threads[t]);
    StepKeepsInv(s, t, s');
  }

  lemma AdvanceShape<T>(s: State<T>, t: Tid, head: Tagged, next: Tagged, ret: T, s': State<T>)
    requires Inv(s) && t in s.threads && s.threads[t] == PopCasHead(head, next, ret) && s.head == head
    requires s' == AdvanceState(s, t, head, next, ret)
    ensures Linked(s') && TailNearEnd(s') && Advances(s, s') && s.mem[s.chain[1]].data == ret
  {
    assert Knows(s, s.threads[t]);
    assert forall i :: 0 <= i < |s'.chain| ==> s'.chain[i] == s.chain[i + 1];
  }

  /** The linearization point of a successful pop: head, second node and copied value are current. */
  lemma AdvanceKeepsInv<T>(s: State<T>, t: Tid, head: Tagged, next: Tagged, ret: T, s': State<T>)
    requires Inv(s) && t in s.threads && s.threads[t] == PopCasHead(head, next, ret) && s.head == head
    requires s' == AdvanceState(s, t, head, next, ret)
    ensures Inv(s') && Advances(s, s') && s.mem[s.chain[1]].data == ret
  {
    AdvanceShape(s, t, head, next, ret, s');
    assert s.chain[0] == head.ptr && forall i :: 0 <= i < |s'.chain| ==> s'.chain[i] == s.chain[i + 1];
    assert forall u <- s.threads :: Private(s, s.threads[u]);
    StepKeepsInv(s, t, s');
  }

  lemma DestructKeepsInv<T>(s: State<T>, t: Tid)
    requires Inv(s) && t in s.threads && s.threads[t].PopDestruct?
    ensures
      var PopDestruct(head, ret) := s.threads[t];
      Inv(Goto(s, t, PopReturn(Some(ret))).(free := s.free + {head.ptr}))
  {
    var PopDestruct(head, ret) := s.threads[t];
    var s' := Goto(s, t, PopReturn(Some(ret))).(free := s.free + {head.ptr});
    assert head.ptr in Owned(s.threads[t]) && Private(s, s.threads[t]);
    forall u <- s.threads | u != t
      ensures Private(s', s.threads[u])
    {
      assert Private(s, s.threads[u]) && Owned(s.threads[u]) !! Owned(s.threads[t]);
    }
    StepKeepsInv(s, t, s');
  }

  lemma PoolKeepsInv<T(!new)>(s: State<T>, s': State<T>)
    requires Inv(s) && PoolStep(s, s')
    ensures Inv(s') && Quiet(s, s')
  {
    assert Quiet(s, s');
    forall u <- s.threads
      ensures Knows(s', s'.threads[u]) && Private(s', s'.threads[u])
    {
      assert Private(s, s.threads[u]);
      KnowsStable(s, s', s.threads[u]);
    }
  }

  lemma Known<T>(s: State<T>, t: Tid)
    requires Inv(s) && t in s.threads
    ensures Linked(s) && TailNearEnd(s) && Knows(s, s.threads[t])
  {
  }

  /** The steps of push that only read: what the thread learns is true. */
  lemma PushReads<T(!new)>(s: State<T>, t: Tid, l: Label<T>, s': State<T>)
    requires Linked(s) && TailNearEnd(s) && t in s.threads && Knows(s, s.threads[t]) && PushStep(s, t, l, s')
    requires var c := s.threads[t];
      c.PushInitLoad? || c.PushLoadTail? || c.PushLoadNext? || c.PushCheckTail? || (c.PushCasNext? && l == Tau)
    ensures t in s'.threads && s' == Goto(s, t, s'.threads[t])
    ensures Owned(s'.threads[t]) == Owned(s.threads[t]) && Knows(s, s'.threads[t])
  {
    assert s.tail.ptr in s.chain;
  }

  /** The steps of pop that only read. In `PopCheckHead` the extra null test never fires (see `NoNullRetry`). */
  lemma PopLoads<T(!new)>(s: State<T>, t: Tid, l: Label<T>, s': State<T>)
    requires Linked(s) && TailNearEnd(s) && t in s.threads && Knows(s, s.threads[t]) && PopStep(s, t, l, s')
    requires var c := s.threads[t]; c.PopLoadHead? || c.PopLoadTail? || c.PopLoadNext?
    ensures t in s'.threads && s' == Goto(s, t, s'.threads[t])
    ensures Owned(s'.threads[t]) == {} && Knows(s, s'.threads[t])
  {
    assert |s.chain| >= 2 ==> s.mem[s.chain[0]].next.ptr == s.chain[1] && s.chain[1] in s.mem;
    assert s.tail.ptr in s.chain;
  }

  lemma PopReads<T(!new)>(s: State<T>, t: Tid, l: Label<T>, s': State<T>)
    requires Linked(s) && TailNearEnd(s) && t in s.threads && Knows(s, s.threads[t]) && PopStep(s, t, l, s')
    requires var c := s.threads[t];
      c.PopLoadHead? || c.PopLoadTail? || c.PopLoadNext? || c.PopCheckHead? || c.PopCopy? || (c.PopCasHead? && l == Tau)
    ensures t in s'.threads && s' == Goto(s, t, s'.threads[t])
    ensures Owned(s'.threads[t]) == {} && Knows(s, s'.threads[t])
  {
    var c := s.threads[t];
    if c.PopLoadHead? || c.PopLoadTail? || c.PopLoadNext? {
      PopLoads(s, t, l, s');
    } else {
      assert |s.chain| >= 2 ==> s.mem[s.chain[0]].next.ptr == s.chain[1] && s.chain[1] in s.mem;
    }
  }

  lemma PushKeepsInv<T(!new)>(s: State<T>, t: Tid, l: Label<T>, s': State<T>)
    requires Inv(s) && t in s.threads && PushStep(s, t, l, s')
    ensures Inv(s')
  {
    hide Inv, Linked, TailNearEnd, Knows;
    Known(s, t);
    var c := s.threads[t];
    if c.PushConstruct? {
      PushConstructKeepsInv(s, t, l, s');
    } else if c.PushInitStore? {
      InitStoreKeepsInv(s, t, c.v, c.n, c.was);
    } else if c.PushHelp? {
      SwingKeepsInv(s, t, c.tail, c.next.ptr, PushLoadTail(c.v, c.n));
    } else if c.PushCasTail? {
      SwingKeepsInv(s, t, c.tail, c.next.ptr, PushReturn);
    } else if c.Ready? {
      PlainStepKeepsInv(s, t, PushConstruct(l.v));
    } else if c.PushFailed? || c.PushReturn? {
      PlainStepKeepsInv(s, t, Ready);
    } else if l.DoPush? {
      AppendKeepsInv(s, t, c.v, c.n, c.tail, c.next, s');
    } else {
      PushReads(s, t, l, s');
      LocalStepKeepsInv(s, t, s'.threads[t]);
    }
  }

  lemma PushConstructKeepsInv<T(!new)>(s: State<T>, t: Tid, l: Label<T>, s': State<T>)
    requires Inv(s) && t in s.threads && s.threads[t].PushConstruct? && PushStep(s, t, l, s')
    ensures Inv(s')
  {
    hide Inv;
    var v := s.threads[t].v;
    if s' == Goto(s, t, PushFailed(v)) {
      PlainStepKeepsInv(s, t, PushFailed(v));
    } else {
      var h :| h in s.free && h in s.mem &&
        s' == Goto(s, t, PushInitLoad(v, h)).(free := s.free - {h}, mem := s.mem[h := s.mem[h].(data := v)]);
      ConstructKeepsInv(s, t, v, h);
    }
  }

  lemma PopKeepsInv<T(!new)>(s: State<T>, t: Tid, l: Label<T>, s': State<T>)
    requires Inv(s) && t in s.threads && PopStep(s, t, l, s')
    ensures Inv(s')
  {
    Known(s, t);
    hide Inv, Linked, TailNearEnd, Knows;
    var c := s.threads[t];
    if c.Ready? {
      PlainStepKeepsInv(s, t, PopLoadHead);
    } else if c.PopHelp? {
      SwingKeepsInv(s, t, c.tail, c.next.ptr, PopLoadHead);
    } else if c.PopDestruct? {
      DestructKeepsInv(s, t);
    } else if c.PopReturn? {
      PlainStepKeepsInv(s, t, Ready);
    } else if l.DoPop? {
      AdvanceKeepsInv(s, t, c.head, c.next, c.ret, s');
    } else {
      PopReads(s, t, l, s');
      LocalStepKeepsInv(s, t, s'.threads[t]);
    }
  }

  // ---------------------------------------------------------------- refinement

  lemma InitHasInv<T(!new)>(s: State<T>)
    requires Init(s)
    ensures Inv(s)
  {
    assert forall t <- s.threads :: s.threads[t] == Ready by {
      assert forall t <- s.threads :: s.threads[t] in s.threads.Values;
    }
  }

  lemma NextKeepsInv<T(!new)>(s: State<T>, l: Label<T>, s': State<T>)
    requires Inv(s) && Next(s, l, s')
    ensures Inv(s')
  {
    hide Inv, PushStep, PopStep;
    if l == Tau && PoolStep(s, s') {
      PoolKeepsInv(s, s');
    } else {
      var t :| t in s.threads && (PushStep(s, t, l, s') || PopStep(s, t, l, s'));
      if PushStep(s, t, l, s') { PushKeepsInv(s, t, l, s'); } else { PopKeepsInv(s, t, l, s'); }
    }
  }

  /** The elements in the queue: the data of every chain node but the dummy in front. */
  ghost function Contents<T>(s: State<T>): seq<T>
    requires Linked(s)
  {
    seq(|s.chain| - 1, i requires 0 <= i < |s.chain| - 1 => s.mem[s.chain[i + 1]].data)
  }

  /** How far the atomic operation behind a thread's control point has got. */
  function Progress<T>(l: Local<T>): Status<T> {
    match l
    case Ready => Idle
    case PushConstruct(v) => PushPending(v)
    case PushInitLoad(v, _) => PushPending(v)
    case PushInitStore(v, _, _) => PushPending(v)
    case PushLoadTail(v, _) => PushPending(v)
    case PushLoadNext(v, _, _) => PushPending(v)
    case PushCheckTail(v, _, _, _) => PushPending(v)
    case PushHelp(v, _, _, _) => PushPending(v)
    case PushCasNext(v, _, _, _) => PushPending(v)
    case PushFailed(v) => PushPending(v)
    case PushCasTail(_, _) => PushDone
    case PushReturn => PushDone
    case PopCheckHead(_, _, _, sawEmpty) => PopPending(sawEmpty)
    case PopDestruct(_, ret) => PopDone(ret)
    case PopReturn(Some(ret)) => PopDone(ret)
    case PopReturn(None) => PopPending(true)
    case _ => PopPending(false)
  }

  ghost function Abs<T>(s: State<T>): Spec<T>
    requires Linked(s)
  {
    Spec(Contents(s), map t <- s.threads :: Progress(s.threads[t]))
  }

  ghost function AbsRun<T>(run: seq<State<T>>): seq<Spec<T>>
    requires forall i :: 0 <= i < |run| ==> Linked(run[i])
  {
    seq(|run|, i requires 0 <= i < |run| => Abs(run[i]))
  }

  lemma QuietKeepsContents<T>(s: State<T>, s': State<T>)
    requires Linked(s) && Linked(s') && s'.chain == s.chain && KeepsChainNodes(s, s', |s.chain|)
    ensures Contents(s') == Contents(s)
  {
    assert forall i :: 0 <= i < |s.chain| ==> s'.mem[s.chain[i]] == s.mem[s.chain[i]];
  }

  lemma AppendAddsLast<T>(s: State<T>, s': State<T>)
    requires Linked(s) && Linked(s') && Appends(s, s')
    ensures Contents(s') == Contents(s) + [s'.mem[Last(s'.chain)].data]
  {
    assert forall i :: 0 <= i < |s.chain| ==> s'.chain[i] == s.chain[i] && s'.mem[s.chain[i]].data == s.mem[s.chain[i]].data;
  }

  lemma AdvanceRemovesFirst<T>(s: State<T>, s': State<T>)
    requires Linked(s) && Linked(s') && Advances(s, s')
    ensures Contents(s) == [s.mem[s.chain[1]].data] + Contents(s')
  {
    assert forall i :: 0 <= i < |s'.chain| ==> s'.chain[i] == s.chain[i + 1];
  }

  /** Changing one thread's control point changes the status of that thread only. */
  lemma StatusMoves<T>(s: State<T>, t: Tid, s': State<T>)
    requires Linked(s) && Linked(s') && t in s.threads && t in s'.threads && s'.threads == s.threads[t := s'.threads[t]]
    ensures Moves(Abs(s).status, t, Progress(s.threads[t]), Progress(s'.threads[t]), Abs(s').status)
  {
    assert Abs(s').status == Abs(s).status[t := Progress(s'.threads[t])];
  }

  /** The successful exchange on the last node's `next` is the atomic effect of push. */
  lemma PushEffect<T(!new)>(s: State<T>, t: Tid, v: T, s': State<T>)
    requires Inv(s) && t in s.threads && PushStep(s, t, DoPush(t, v), s')
    ensures Inv(s') && Contents(s') == Contents(s) + [v]
    ensures t in s'.threads && s'.threads == s.threads[t := s'.threads[t]]
    ensures Progress(s.threads[t]) == PushPending(v) && Progress(s'.threads[t]) == PushDone
  {
    var PushCasNext(_, n, tail, next) := s.threads[t];
    AppendKeepsInv(s, t, v, n, tail, next, s');
    AppendAddsLast(s, s');
  }

  /** The successful exchange on `head_` is the atomic effect of pop; the copied value is the front. */
  lemma PopEffect<T(!new)>(s: State<T>, t: Tid, v: T, s': State<T>)
    requires Inv(s) && t in s.threads && PopStep(s, t, DoPop(t, v), s')
    ensures Inv(s') && Contents(s) == [v] + Contents(s')
    ensures t in s'.threads && s'.threads == s.threads[t := s'.threads[t]]
    ensures Progress(s.threads[t]) == PopPending(false) && Progress(s'.threads[t]) == PopDone(v)
  {
    var PopCasHead(head, next, _) := s.threads[t];
    AdvanceKeepsInv(s, t, head, next, v, s');
    AdvanceRemovesFirst(s, s');
  }

  /** How a step of push that is not its linearization point moves the atomic operation behind it. */
  lemma PushProgress<T(!new)>(s: State<T>, t: Tid, l: Label<T>, s': State<T>)
    requires Linked(s) && Ownership(s) && t in s.threads && PushStep(s, t, l, s') && !l.DoPush?
    ensures t in s'.threads && s'.threads == s.threads[t := s'.threads[t]]
    ensures s'.chain == s.chain && KeepsChainNodes(s, s', |s.chain|)
    ensures
      var p, p' := Progress(s.threads[t]), Progress(s'.threads[t]);
      match l
      case Tau => p' == p
      case CallPush(u, v) => u == t && p == Idle && p' == PushPending(v)
      case RetPush(u, ok) => u == t && p' == Idle && (if ok then p == PushDone else p.PushPending?)
      case _ => false
  {
    assert Private(s, s.threads[t]);
  }

  lemma PopFrame<T(!new)>(s: State<T>, t: Tid, l: Label<T>, s': State<T>)
    requires Linked(s) && t in s.threads && PopStep(s, t, l, s') && !l.DoPop?
    ensures t in s'.threads && s'.threads == s.threads[t := s'.threads[t]]
    ensures s'.chain == s.chain && KeepsChainNodes(s, s', |s.chain|)
  {
  }

  lemma PopStatus<T(!new)>(s: State<T>, t: Tid, l: Label<T>, s': State<T>)
    requires Linked(s) && t in s.threads && Knows(s, s.threads[t]) && PopStep(s, t, l, s') && !l.DoPop?
    ensures t in s'.threads
    ensures
      var p, p' := Progress(s.threads[t]), Progress(s'.threads[t]);
      match l
      case Tau => p' == p || (p.PopPending? && p'.PopPending? && (p'.sawEmpty ==> |s.chain| == 1))
      case CallPop(u) => u == t && p == Idle && p' == PopPending(false)
      case RetPop(u, r) => u == t && p' == Idle && p == (if r.Some? then PopDone(r.value) else PopPending(true))
      case _ => false
  {
  }

  /** How a step of pop that is not its linearization point moves the atomic operation behind it. */
  lemma PopProgress<T(!new)>(s: State<T>, t: Tid, l: Label<T>, s': State<T>)
    requires Linked(s) && t in s.threads && Knows(s, s.threads[t]) && PopStep(s, t, l, s') && !l.DoPop?
    ensures t in s'.threads && s'.threads == s.threads[t := s'.threads[t]]
    ensures s'.chain == s.chain && KeepsChainNodes(s, s', |s.chain|)
    ensures
      var p, p' := Progress(s.threads[t]), Progress(s'.threads[t]);
      match l
      case Tau => p' == p || (p.PopPending? && p'.PopPending? && (p'.sawEmpty ==> |s.chain| == 1))
      case CallPop(u) => u == t && p == Idle && p' == PopPending(false)
      case RetPop(u, r) => u == t && p' == Idle && p == (if r.Some? then PopDone(r.value) else PopPending(true))
      case _ => false
  {
    hide PopStep, Knows, Linked, Progress, KeepsChainNodes;
    PopFrame(s, t, l, s');
    PopStatus(s, t, l, s');
  }

  lemma Parts<T>(s: State<T>)
    requires Inv(s)
    ensures Linked(s) && Ownership(s)
  {
  }

  lemma ThreadSimulates<T(!new)>(s: State<T>, t: Tid, l: Label<T>, s': State<T>)
    requires Inv(s) && t in s.threads && (PushStep(s, t, l, s') || PopStep(s, t, l, s')) && Inv(s')
    ensures QueueSpec.Next(Abs(s), l, Abs(s'))
  {
    hide PushStep, PopStep, Knows, Inv, Ownership, Progress, TailNearEnd, Seen;
    Known(s, t);
    Parts(s);
    Parts(s');
    if PushStep(s, t, l, s') {
      if l.DoPush? { PushLabel(s, t, l, s'); PushEffect(s, t, l.v, s'); } else { PushProgress(s, t, l, s'); }
    } else {
      if l.DoPop? { PopLabel(s, t, l, s'); PopEffect(s, t, l.v, s'); } else { PopProgress(s, t, l, s'); }
    }
    if !l.DoPush? && !l.DoPop? { QuietKeepsContents(s, s'); }
    StatusMoves(s, t, s');
    if Progress(s'.threads[t]) == Progress(s.threads[t]) { assert Abs(s').status == Abs(s).status; }
  }

  lemma PushLabel<T(!new)>(s: State<T>, t: Tid, l: Label<T>, s': State<T>)
    requires t in s.threads && PushStep(s, t, l, s') && l.DoPush?
    ensures l.t == t
  {
  }

  lemma PopLabel<T(!new)>(s: State<T>, t: Tid, l: Label<T>, s': State<T>)
    requires t in s.threads && PopStep(s, t, l, s') && l.DoPop?
    ensures l.t == t
  {
  }

  lemma NextSimulates<T(!new)>(s: State<T>, l: Label<T>, s': State<T>)
    requires Inv(s) && Next(s, l, s')
    ensures Inv(s') && QueueSpec.Next(Abs(s), l, Abs(s'))
  {
    NextKeepsInv(s, l, s');
    if l == Tau && PoolStep(s, s') {
      PoolKeepsInv(s, s');
      QuietKeepsContents(s, s');
    } else {
      hide PushStep, PopStep, QueueSpec.Next;
      var t :| t in s.threads && (PushStep(s, t, l, s') || PopStep(s, t, l, s'));
      ThreadSimulates(s, t, l, s');
    }
  }

  /** The invariant holds in every reachable state. */
  lemma {:induction false} RunHasInv<T(!new)>(run: seq<State<T>>, labels: seq<Label<T>>, i: nat)
    requires IsRun(run, labels) && i < |run|
    ensures Inv(run[i])
  {
    hide Inv, Next, Init;
    if i == 0 {
      InitHasInv(run[0]);
    } else {
      RunHasInv(run, labels, i - 1);
      assert Next(run[i - 1], labels[i - 1], run[i]);
      NextKeepsInv(run[i - 1], labels[i - 1], run[i]);
    }
  }

  /** Linearizability: every run of any number of threads, with node reuse, is step for step a run
      of the atomic queue with the same calls, the same effects in the same order and the same answers. */
  lemma {:induction false} Linearizable<T(!new)>(run: seq<State<T>>, labels: seq<Label<T>>)
    requires IsRun(run, labels)
    ensures forall i :: 0 <= i < |run| ==> Linked(run[i])
    ensures QueueSpec.IsRun(AbsRun(run), labels)
  {
    hide Next, QueueSpec.Next;
    forall i | 0 <= i < |run| ensures Inv(run[i]) { RunHasInv(run, labels, i); }
    var abs := AbsRun(run);
    assert QueueSpec.Init(abs[0]) by {
      assert forall t <- run[0].threads :: run[0].threads[t] in run[0].threads.Values;
    }
    forall i | 0 <= i < |labels| ensures QueueSpec.Next(abs[i], labels[i], abs[i + 1]) {
      NextSimulates(run[i], labels[i], run[i + 1]);
    }
  }

  /** FIFO over whole runs of the concrete machine: what was pushed is what was popped plus what is linked. */
  lemma FifoRuns<T(!new)>(run: seq<State<T>>, labels: seq<Label<T>>)
    requires IsRun(run, labels)
    ensures Linked(run[|labels|]) && Pushed(labels) == Popped(labels) + Contents(run[|labels|])
  {
    Linearizable(run, labels);
    Fifo(AbsRun(run), labels);
  }

  // ---------------------------------------------------------------- properties of reachable states

  /** `tail_` is reachable from `head_`, never behind it, and at most one node before the end. */
  lemma TailFollowsHead<T(!new)>(run: seq<State<T>>, labels: seq<Label<T>>, i: nat)
    requires IsRun(run, labels) && i < |run|
    ensures
      var s := run[i];
      && Linked(s)
      && exists k :: 0 <= k < |s.chain| && |s.chain| - 2 <= k && s.chain[k] == s.tail.ptr
  {
    RunHasInv(run, labels, i);
    var s := run[i];
    assert s.chain[|s.chain| - 1] == s.tail.ptr || s.chain[|s.chain| - 2] == s.tail.ptr;
  }

  /** The null test added to the published algorithm never fires once `head_` was re-read unchanged. */
  lemma NoNullRetry<T(!new)>(run: seq<State<T>>, labels: seq<Label<T>>, i: nat, t: Tid)
    requires IsRun(run, labels) && i < |run| && t in run[i].threads && run[i].threads[t].PopCheckHead?
    ensures
      var PopCheckHead(head, tail, next, sawEmpty) := run[i].threads[t];
      run[i].head == head && head.ptr != tail.ptr ==> next.ptr != 0
  {
    RunHasInv(run, labels, i);
    Known(run[i], t);
  }

  /** `pop` answers "empty" only from a round whose load of `next` found the queue empty. */
  lemma EmptyAnswerIsTrue<T(!new)>(run: seq<State<T>>, labels: seq<Label<T>>, i: nat, t: Tid)
    requires IsRun(run, labels) && i < |labels| && t in run[i].threads && run[i].threads[t].PopCheckHead?
    requires PopStep(run[i], t, labels[i], run[i + 1]) && run[i + 1].threads[t] == PopReturn(None)
    ensures run[i].threads[t].sawEmpty
  {
    RunHasInv(run, labels, i);
    Known(run[i], t);
  }

  /** The node whose fields the next step of a thread reads or writes. */
  function Accessed<T>(l: Local<T>): set<Handle> {
    match l
    case PushInitLoad(_, n) => {n}
    case PushInitStore(_, n, _) => {n}
    case PushLoadNext(_, _, tail) => {tail.ptr}
    case PushCasNext(_, _, tail, _) => {tail.ptr}
    case PopLoadNext(head, _) => {head.ptr}
    case PopCopy(_, next) => {next.ptr}
    case _ => {}
  }

  /** No thread ever dereferences null or an unmapped node, however stale its handles are. */
  lemma MemorySafe<T(!new)>(run: seq<State<T>>, labels: seq<Label<T>>, i: nat, t: Tid)
    requires IsRun(run, labels) && i < |run| && t in run[i].threads
    ensures Accessed(run[i].threads[t]) <= run[i].mem.Keys && 0 !in run[i].mem
  {
    RunHasInv(run, labels, i);
    Known(run[i], t);
  }
}
