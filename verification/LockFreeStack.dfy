/** The Treiber stack of boost::lockfree, one atomic access per step, any number of threads.

    As in the queue, handle 0 is null, tags are unbounded, memory is sequentially consistent and the
    node pool hands out nodes nobody owns, rewriting free nodes at will. Only pops change the tag.

    `chain` is auxiliary: the nodes on the stack from the top. So are the lists of private nodes and
    the values `order` and `v` that record what an effect took: no step reads them to decide anything. */
module LockFreeStack {
  import opened Common
  import opened StackSpec

  datatype Node<T> = Node(next: Handle, v: T)

  /** Where a thread is, with its local variables. `nodes` and `rest` list private nodes, top first. */
  datatype Local<T> =
    | Ready
    // prepare_node_list: `k` elements of `vs` are linked in `nodes`
    | PrepConstruct(vs: seq<T>, k: nat, nodes: seq<Handle>)
    | PrepLink(vs: seq<T>, k: nat, nodes: seq<Handle>, n: Handle)
    | PushFailed(vs: seq<T>)
    // link_nodes_atomic for the accepted elements `vs[..|nodes|]`
    | LinkLoad(vs: seq<T>, nodes: seq<Handle>)
    | LinkStore(vs: seq<T>, nodes: seq<Handle>, top: Tagged)
    | LinkCas(vs: seq<T>, nodes: seq<Handle>, top: Tagged)
    | PushReturn(accepted: nat)
    // consume_one
    | PopLoad
    | PopReadNext(top: Tagged)
    | PopCas(top: Tagged, next: Handle)
    | PopVisit(top: Tagged, v: T)
    | PopDestruct(top: Tagged, ret: T)
    | PopReturn(r: Option<T>)
    // consume_all_atomic and consume_all_atomic_reversed
    | TakeLoad(reversed: bool)
    | TakeCas(reversed: bool, top: Tagged)
    | RevRead(cur: Handle, last: Handle, rest: seq<Handle>, done: seq<Handle>, order: seq<T>)
    | RevStore(cur: Handle, last: Handle, next: Handle, rest: seq<Handle>, done: seq<Handle>, order: seq<T>)
    | WalkVisit(cur: Handle, seen: seq<T>, rest: seq<Handle>, order: seq<T>)
    | WalkNext(cur: Handle, seen: seq<T>, rest: seq<Handle>, order: seq<T>)
    | WalkDestruct(cur: Handle, next: Handle, seen: seq<T>, rest: seq<Handle>, order: seq<T>)
    | TakeReturn(seen: seq<T>, order: seq<T>)

  datatype State<T> = State(
    tos: Tagged,
    mem: map<Handle, Node<T>>,
    free: set<Handle>,
    threads: map<Tid, Local<T>>,
    chain: seq<Handle>)

  // ---------------------------------------------------------------- steps

  ghost predicate Init<T>(s: State<T>) {
    && s.tos == Tagged(0, 0) && s.mem == map[] && s.free == {} && s.chain == []
    && s.threads.Values <= {Ready}
  }

  function Goto<T>(s: State<T>, t: Tid, l: Local<T>): State<T> {
    s.(threads := s.threads[t := l])
  }

  /** The values of a list of nodes. */
  ghost function Data<T>(mem: map<Handle, Node<T>>, xs: seq<Handle>): (vs: seq<T>)
    requires forall i :: 0 <= i < |xs| ==> xs[i] in mem
    ensures |vs| == |xs| && forall i :: 0 <= i < |xs| ==> vs[i] == mem[xs[i]].v
  {
    seq(|xs|, i requires 0 <= i < |xs| => mem[xs[i]].v)
  }

  ghost predicate Mapped<T>(mem: map<Handle, Node<T>>, xs: seq<Handle>) {
    forall i :: 0 <= i < |xs| ==> xs[i] in mem
  }

  /** The pool rewrites a free node or maps a new one. */
  ghost predicate PoolStep<T(!new)>(s: State<T>, s': State<T>) {
    exists h :: h in s'.mem && h != 0 && (h in s.mem ==> h in s.free) &&
      s' == s.(mem := s.mem[h := s'.mem[h]], free := s.free + {h})
  }

  ghost predicate PushStep<T(!new)>(s: State<T>, t: Tid, l: Label<T>, s': State<T>)
    requires t in s.threads
  {
    match s.threads[t]
    case Ready => l.CallPush? && l.t == t && l.vs != [] && s' == Goto(s, t, PrepConstruct(l.vs, 0, []))
    case PrepConstruct(vs, k, nodes) =>
      && l == Tau && k < |vs|
      && (|| s' == Goto(s, t, if k == 0 then PushFailed(vs) else LinkLoad(vs, nodes))  // the pool is exhausted
          || exists h :: h in s.free && h in s.mem &&
                s' == Goto(s, t, PrepLink(vs, k, nodes, h)).(free := s.free - {h}, mem := s.mem[h := s.mem[h].(v := vs[k])]))
    case PrepLink(vs, k, nodes, n) =>
      && l == Tau && n in s.mem
      && s' == Goto(s, t, if k + 1 == |vs| then LinkLoad(vs, [n] + nodes) else PrepConstruct(vs, k + 1, [n] + nodes)).(
                 mem := s.mem[n := s.mem[n].(next := if nodes == [] then 0 else nodes[0])])
    case PushFailed(_) => l == RetPush(t, 0) && s' == Goto(s, t, Ready)
    case LinkLoad(vs, nodes) => l == Tau && s' == Goto(s, t, LinkStore(vs, nodes, s.tos))
    case LinkStore(vs, nodes, top) =>
      && l == Tau && nodes != [] && nodes[|nodes| - 1] in s.mem
      && s' == StoreState(s, t, vs, nodes, top)
    case LinkCas(vs, nodes, top) =>
      if l.DoPush? then
        && nodes != [] && |nodes| <= |vs| && l == DoPush(t, vs[..|nodes|]) && s.tos == top
        && s' == Goto(s, t, PushReturn(|nodes|)).(tos := Tagged(nodes[0], top.tag), chain := nodes + s.chain)
      else  // the exchange failed, possibly spuriously, and reloaded `tos`
        l == Tau && s' == Goto(s, t, LinkStore(vs, nodes, s.tos))
    case PushReturn(k) => l == RetPush(t, k) && s' == Goto(s, t, Ready)
    case _ => false
  }

  /** After `end_node->next = old_tos`. */
  function StoreState<T>(s: State<T>, t: Tid, vs: seq<T>, nodes: seq<Handle>, top: Tagged): State<T>
    requires nodes != [] && nodes[|nodes| - 1] in s.mem
  {
    var e := nodes[|nodes| - 1];
    Goto(s, t, LinkCas(vs, nodes, top)).(mem := s.mem[e := s.mem[e].(next := top.ptr)])
  }

  /** Having read `tos`: a null top is the empty answer, on the spot. */
  ghost predicate SeesTop<T>(s: State<T>, t: Tid, l: Label<T>, s': State<T>) {
    if s.tos.ptr == 0 then l == DoPop(t, None) && s' == Goto(s, t, PopReturn(None))
    else l == Tau && s' == Goto(s, t, PopReadNext(s.tos))
  }

  ghost predicate PopStep<T(!new)>(s: State<T>, t: Tid, l: Label<T>, s': State<T>)
    requires t in s.threads
  {
    match s.threads[t]
    case Ready => l == CallPop(t) && s' == Goto(s, t, PopLoad)
    case PopLoad => SeesTop(s, t, l, s')
    case PopReadNext(top) => l == Tau && top.ptr in s.mem && s' == Goto(s, t, PopCas(top, s.mem[top.ptr].next))
    case PopCas(top, next) =>
      if l.DoPop? && l.r.Some? then
        && s.tos == top && top.ptr in s.mem && l == DoPop(t, Some(s.mem[top.ptr].v))
        && s' == Goto(s, t, PopVisit(top, s.mem[top.ptr].v)).(
                   tos := Tagged(next, top.tag + 1), chain := if s.chain == [] then [] else s.chain[1..])
      else
        SeesTop(s, t, l, s')
    case PopVisit(top, _) => l == Tau && top.ptr in s.mem && s' == Goto(s, t, PopDestruct(top, s.mem[top.ptr].v))
    case PopDestruct(top, ret) => l == Tau && s' == Goto(s, t, PopReturn(Some(ret))).(free := s.free + {top.ptr})
    case PopReturn(r) => l == RetPop(t, r) && s' == Goto(s, t, Ready)
    case _ => false
  }

  /** Having read `tos`: a null top means there is nothing to consume. */
  ghost predicate SeesAll<T>(s: State<T>, t: Tid, rev: bool, l: Label<T>, s': State<T>) {
    if s.tos.ptr == 0 then l == DoTake(t) && s' == Goto(s, t, TakeReturn([], []))
    else l == Tau && s' == Goto(s, t, TakeCas(rev, s.tos))
  }

  ghost predicate TakeStep<T(!new)>(s: State<T>, t: Tid, l: Label<T>, s': State<T>)
    requires t in s.threads
  {
    match s.threads[t]
    case Ready => l.CallTake? && l.t == t && s' == Goto(s, t, TakeLoad(l.reversed))
    case TakeLoad(rev) => SeesAll(s, t, rev, l, s')
    case TakeCas(rev, top) =>
      if l.DoTake? && s.tos.ptr != 0 then
        && l == DoTake(t) && s.tos == top && Mapped(s.mem, s.chain)
        && var d := Data(s.mem, s.chain);
           s' == Goto(s, t, if rev then RevRead(top.ptr, 0, s.chain, [], Reverse(d)) else WalkVisit(top.ptr, [], s.chain, d)).(
                   tos := Tagged(0, top.tag + 1), chain := [])
      else
        SeesAll(s, t, rev, l, s')
    case RevRead(cur, last, rest, done, order) =>
      l == Tau && cur in s.mem && s' == Goto(s, t, RevStore(cur, last, s.mem[cur].next, rest, done, order))
    case RevStore(cur, last, next, rest, done, order) =>
      && l == Tau && cur in s.mem && rest != []
      && s' == Goto(s, t, if next == 0 then WalkVisit(cur, [], [cur] + done, order)
                          else RevRead(next, cur, rest[1..], [cur] + done, order)).(
                 mem := s.mem[cur := s.mem[cur].(next := last)])
    case WalkVisit(cur, seen, rest, order) => l == Tau && cur in s.mem && s' == Goto(s, t, WalkNext(cur, seen + [s.mem[cur].v], rest, order))
    case WalkNext(cur, seen, rest, order) => l == Tau && cur in s.mem && s' == Goto(s, t, WalkDestruct(cur, s.mem[cur].next, seen, rest, order))
    case WalkDestruct(cur, next, seen, rest, order) =>
      && l == Tau && rest != []
      && s' == Goto(s, t, if next == 0 then TakeReturn(seen, order) else WalkVisit(next, seen, rest[1..], order)).(free := s.free + {cur})
    case TakeReturn(seen, _) => l == RetTake(t, seen) && s' == Goto(s, t, Ready)
    case _ => false
  }

  ghost predicate ThreadStep<T(!new)>(s: State<T>, t: Tid, l: Label<T>, s': State<T>)
    requires t in s.threads
  {
    PushStep(s, t, l, s') || PopStep(s, t, l, s') || TakeStep(s, t, l, s')
  }

  ghost predicate Next<T(!new)>(s: State<T>, l: Label<T>, s': State<T>) {
    || (l == Tau && PoolStep(s, s'))
    || exists t :: t in s.threads && ThreadStep(s, t, l, s')
  }

  ghost predicate IsRun<T(!new)>(run: seq<State<T>>, labels: seq<Label<T>>) {
    && |run| == |labels| + 1
    && Init(run[0])
    && forall i :: 0 <= i < |labels| ==> Next(run[i], labels[i], run[i + 1])
  }

  // ---------------------------------------------------------------- invariant

  function First(xs: seq<Handle>): Handle {
    if xs == [] then 0 else xs[0]
  }

  /** `xs` is a list of different mapped nodes; each links to the next and the last to `end`. */
  ghost predicate List<T>(mem: map<Handle, Node<T>>, xs: seq<Handle>, end: Handle) {
    && Distinct(xs) && Mapped(mem, xs)
    && (forall i :: 0 <= i < |xs| - 1 ==> mem[xs[i]].next == xs[i + 1])
    && (xs != [] ==> mem[xs[|xs| - 1]].next == end)
  }

  /** A private list whose last link is still to be written. */
  ghost predicate OpenList<T>(mem: map<Handle, Node<T>>, xs: seq<Handle>) {
    xs != [] && Mapped(mem, xs) && List(mem, xs, mem[xs[|xs| - 1]].next)
  }

  /** The nodes a thread holds privately. */
  function Owned<T>(l: Local<T>): seq<Handle> {
    match l
    case PrepConstruct(_, _, nodes) => nodes
    case PrepLink(_, _, nodes, n) => [n] + nodes
    case LinkLoad(_, nodes) => nodes
    case LinkStore(_, nodes, _) => nodes
    case LinkCas(_, nodes, _) => nodes
    case PopVisit(top, _) => [top.ptr]
    case PopDestruct(top, _) => [top.ptr]
    case RevRead(_, _, rest, done, _) => rest + done
    case RevStore(_, _, _, rest, done, _) => rest + done
    case WalkVisit(_, _, rest, _) => rest
    case WalkNext(_, _, rest, _) => rest
    case WalkDestruct(_, _, _, rest, _) => rest
    case _ => []
  }

  /** `tos` was read as `top`: while no pop has happened since, that node is still on the stack. */
  ghost predicate TopSeen<T>(s: State<T>, top: Tagged) {
    top.ptr != 0 && top.ptr in s.mem && top.tag <= s.tos.tag && (top.tag == s.tos.tag ==> top.ptr in s.chain)
  }

  ghost predicate Accepted<T>(s: State<T>, vs: seq<T>, nodes: seq<Handle>) {
    OpenList(s.mem, nodes) && |nodes| <= |vs| && Data(s.mem, nodes) == Reverse(vs[..|nodes|])
  }

  ghost predicate Walking<T>(s: State<T>, cur: Handle, rest: seq<Handle>) {
    rest != [] && rest[0] == cur && List(s.mem, rest, 0)
  }

  ghost predicate Reversing<T>(s: State<T>, cur: Handle, last: Handle, rest: seq<Handle>, done: seq<Handle>, order: seq<T>) {
    && Walking(s, cur, rest) && List(s.mem, done, 0) && First(done) == last
    && order == Reverse(Data(s.mem, rest)) + Data(s.mem, done)
  }

  /** What a thread knows at each point. */
  ghost predicate Knows<T>(s: State<T>, l: Local<T>) {
    match l
    case PrepConstruct(vs, k, nodes) => k < |vs| && k == |nodes| && List(s.mem, nodes, 0) && Data(s.mem, nodes) == Reverse(vs[..k])
    case PrepLink(vs, k, nodes, n) =>
      k < |vs| && k == |nodes| && List(s.mem, nodes, 0) && Data(s.mem, nodes) == Reverse(vs[..k]) && n in s.mem && s.mem[n].v == vs[k]
    case LinkLoad(vs, nodes) => Accepted(s, vs, nodes)
    case LinkStore(vs, nodes, _) => Accepted(s, vs, nodes)
    case LinkCas(vs, nodes, top) => Accepted(s, vs, nodes) && s.mem[nodes[|nodes| - 1]].next == top.ptr
    case PushReturn(k) => k > 0
    case PopReadNext(top) => TopSeen(s, top)
    case PopCas(top, next) => TopSeen(s, top) && (top.tag == s.tos.tag ==> s.mem[top.ptr].next == next)
    case PopVisit(top, v) => top.ptr in s.mem && s.mem[top.ptr].v == v
    case TakeCas(_, top) => top.ptr != 0
    case RevRead(cur, last, rest, done, order) => Reversing(s, cur, last, rest, done, order)
    case RevStore(cur, last, next, rest, done, order) => Reversing(s, cur, last, rest, done, order) && s.mem[cur].next == next
    case WalkVisit(cur, seen, rest, order) => Walking(s, cur, rest) && order == seen + Data(s.mem, rest)
    case WalkNext(cur, seen, rest, order) => Walking(s, cur, rest) && order == seen + Data(s.mem, rest[1..])
    case WalkDestruct(cur, next, seen, rest, order) => Walking(s, cur, rest) && order == seen + Data(s.mem, rest[1..]) && s.mem[cur].next == next
    case TakeReturn(seen, order) => seen == order
    case _ => true
  }

  ghost predicate Private<T>(s: State<T>, l: Local<T>) {
    && Distinct(Owned(l)) && Mapped(s.mem, Owned(l))
    && (forall h <- Owned(l) :: h !in s.free && h !in s.chain)
  }

  ghost predicate Apart<T>(l: Local<T>, m: Local<T>) {
    forall h <- Owned(l) :: h !in Owned(m)
  }

  ghost predicate OnStack<T>(s: State<T>) {
    List(s.mem, s.chain, 0) && s.tos.ptr == First(s.chain) && 0 !in s.mem
  }

  ghost predicate Inv<T>(s: State<T>) {
    && OnStack(s)
    && s.free <= s.mem.Keys && (forall h <- s.chain :: h !in s.free)
    && (forall t <- s.threads :: Private(s, s.threads[t]) && Knows(s, s.threads[t]))
    && (forall t, u :: t in s.threads && u in s.threads && t != u ==> Apart(s.threads[t], s.threads[u]))
  }

  // ---------------------------------------------------------------- every step keeps the invariant

  ghost predicate KeepsNodes<T>(s: State<T>, s': State<T>, xs: seq<Handle>) {
    forall h <- xs :: h in s.mem ==> h in s'.mem && s'.mem[h] == s.mem[h]
  }

  /** What one thread may rely on when another one steps: pops raise the tag, and while the tag
      stays, nodes on the stack stay there and keep their links. */
  ghost predicate SharedStep<T>(s: State<T>, s': State<T>) {
    && s.mem.Keys <= s'.mem.Keys
    && s.tos.tag <= s'.tos.tag
    && (s'.tos.tag == s.tos.tag ==> KeepsNodes(s, s', s.chain) && forall h <- s.chain :: h in s'.chain)
  }

  lemma ListKept<T>(mem: map<Handle, Node<T>>, mem': map<Handle, Node<T>>, xs: seq<Handle>, end: Handle)
    requires List(mem, xs, end) && forall h <- xs :: h in mem' && mem'[h] == mem[h]
    ensures List(mem', xs, end) && Data(mem', xs) == Data(mem, xs)
  {
  }

  /** The nodes a thread holds are as they were. */
  ghost predicate Untouched<T>(s: State<T>, s': State<T>, xs: seq<Handle>) {
    forall h <- xs :: h in s.mem && h in s'.mem && s'.mem[h] == s.mem[h]
  }

  lemma {:induction false} LinkStable<T>(s: State<T>, s': State<T>, vs: seq<T>, nodes: seq<Handle>)
    requires Untouched(s, s', nodes) && Accepted(s, vs, nodes)
    ensures Accepted(s', vs, nodes) && s'.mem[nodes[|nodes| - 1]].next == s.mem[nodes[|nodes| - 1]].next
  {
    ListKept(s.mem, s'.mem, nodes, s.mem[nodes[|nodes| - 1]].next);
  }

  lemma {:induction false} ReversingStable<T>(s: State<T>, s': State<T>, cur: Handle, last: Handle, rest: seq<Handle>,
      done: seq<Handle>, order: seq<T>)
    requires Untouched(s, s', rest + done) && Reversing(s, cur, last, rest, done, order)
    ensures Reversing(s', cur, last, rest, done, order) && s'.mem[cur] == s.mem[cur]
  {
    assert forall h <- rest :: h in rest + done;
    assert forall h <- done :: h in rest + done;
    ListKept(s.mem, s'.mem, rest, 0);
    ListKept(s.mem, s'.mem, done, 0);
  }

  lemma {:induction false} WalkingStable<T>(s: State<T>, s': State<T>, cur: Handle, rest: seq<Handle>)
    requires Untouched(s, s', rest) && Walking(s, cur, rest)
    ensures Walking(s', cur, rest) && s'.mem[cur] == s.mem[cur]
    ensures Data(s'.mem, rest) == Data(s.mem, rest) && Data(s'.mem, rest[1..]) == Data(s.mem, rest[1..])
  {
    ListKept(s.mem, s'.mem, rest, 0);
  }

  lemma {:induction false} KnowsStable<T>(s: State<T>, s': State<T>, l: Local<T>)
    requires SharedStep(s, s') && KeepsNodes(s, s', Owned(l)) && Private(s, l) && Knows(s, l)
    ensures Knows(s', l)
  {
    assert Untouched(s, s', Owned(l));
    if l.PrepConstruct? {
      ListKept(s.mem, s'.mem, l.nodes, 0);
    } else if l.PrepLink? {
      assert forall h <- l.nodes :: h in Owned(l);
      ListKept(s.mem, s'.mem, l.nodes, 0);
    } else if l.LinkLoad? || l.LinkStore? || l.LinkCas? {
      LinkStable(s, s', l.vs, l.nodes);
    } else if l.RevRead? || l.RevStore? {
      ReversingStable(s, s', l.cur, l.last, l.rest, l.done, l.order);
    } else if l.WalkVisit? || l.WalkNext? || l.WalkDestruct? {
      WalkingStable(s, s', l.cur, l.rest);
    }
  }

  /** Collects what a step of thread `t` owes. */
  lemma {:induction false} StepKeepsInv<T>(s: State<T>, t: Tid, s': State<T>)
    requires Inv(s) && t in s.threads && t in s'.threads && s'.threads == s.threads[t := s'.threads[t]]
    requires OnStack(s') && SharedStep(s, s') && s'.free <= s'.mem.Keys && forall h <- s'.chain :: h !in s'.free
    requires Private(s', s'.threads[t]) && Knows(s', s'.threads[t])
    requires forall u <- s.threads :: u != t ==>
      && Private(s', s.threads[u]) && KeepsNodes(s, s', Owned(s.threads[u]))
      && Apart(s.threads[u], s'.threads[t]) && Apart(s'.threads[t], s.threads[u])
    ensures Inv(s')
  {
    forall u <- s.threads | u != t
      ensures Knows(s', s'.threads[u])
    {
      KnowsStable(s, s', s.threads[u]);
    }
  }

  /** Steps that only move the thread's own control point. */
  lemma {:induction false} LocalStepKeepsInv<T>(s: State<T>, t: Tid, l: Local<T>)
    requires Inv(s) && t in s.threads && (Owned(l) == Owned(s.threads[t]) || Owned(l) == []) && Knows(s, l)
    ensures Inv(Goto(s, t, l))
  {
    var s' := Goto(s, t, l);
    assert Private(s, s.threads[t]) && Private(s', l) && Knows(s', l);
    forall u <- s.threads | u != t
      ensures Private(s', s.threads[u]) && Apart(s.threads[u], l) && Apart(l, s.threads[u])
    {
      assert Private(s, s.threads[u]) && Apart(s.threads[u], s.threads[t]) && Apart(s.threads[t], s.threads[u]);
    }
    StepKeepsInv(s, t, s');
  }

  /** Keeping some of one's own nodes. */
  lemma {:induction false} PrivateShrinks<T>(s: State<T>, m: Local<T>, l: Local<T>)
    requires Private(s, m) && Distinct(Owned(l)) && forall h <- Owned(l) :: h in Owned(m)
    ensures Private(s, l)
  {
    forall i | 0 <= i < |Owned(l)| ensures Owned(l)[i] in s.mem { assert Owned(l)[i] in Owned(m); }
  }

  /** A write to one's own node. */
  lemma {:induction false} OwnWriteKeepsInv<T>(s: State<T>, t: Tid, l: Local<T>, n: Handle, x: Node<T>)
    requires Inv(s) && t in s.threads && n in Owned(s.threads[t])
    requires Distinct(Owned(l)) && forall h <- Owned(l) :: h in Owned(s.threads[t])
    requires Knows(Goto(s, t, l).(mem := s.mem[n := x]), l)
    ensures Inv(Goto(s, t, l).(mem := s.mem[n := x]))
  {
    hide Knows;
    var s' := Goto(s, t, l).(mem := s.mem[n := x]);
    assert Private(s, s.threads[t]);
    PrivateShrinks(s, s.threads[t], l);
    assert n in s.mem && n !in s.chain;
    forall u <- s.threads | u != t
      ensures Private(s', s.threads[u]) && KeepsNodes(s, s', Owned(s.threads[u])) && Apart(s.threads[u], l) && Apart(l, s.threads[u])
    {
      assert Private(s, s.threads[u]) && Apart(s.threads[u], s.threads[t]) && Apart(s.threads[t], s.threads[u]);
    }
    ListKept(s.mem, s'.mem, s.chain, 0);
    StepKeepsInv(s, t, s');
  }

  /** Giving one's own node back to the pool. */
  lemma {:induction false} DestructKeepsInv<T>(s: State<T>, t: Tid, l: Local<T>, n: Handle)
    requires Inv(s) && t in s.threads && n in Owned(s.threads[t]) && n !in Owned(l)
    requires Distinct(Owned(l)) && forall h <- Owned(l) :: h in Owned(s.threads[t])
    requires Knows(s, l)
    ensures Inv(Goto(s, t, l).(free := s.free + {n}))
  {
    hide Knows;
    var s' := Goto(s, t, l).(free := s.free + {n});
    assert Private(s, s.threads[t]);
    PrivateShrinks(s, s.threads[t], l);
    KnowsElsewhere(s, s', l);
    forall u <- s.threads | u != t
      ensures Private(s', s.threads[u]) && Apart(s.threads[u], l) && Apart(l, s.threads[u])
    {
      assert Private(s, s.threads[u]) && Apart(s.threads[u], s.threads[t]) && Apart(s.threads[t], s.threads[u]);
    }
    StepKeepsInv(s, t, s');
  }

  /** Knowledge does not depend on the free set or on the other threads. */
  lemma {:induction false} KnowsElsewhere<T>(s: State<T>, s': State<T>, l: Local<T>)
    requires s'.tos == s.tos && s'.mem == s.mem && s'.chain == s.chain && Knows(s, l)
    ensures Knows(s', l)
  {
  }

  lemma {:induction false} ConstructKnows<T>(s: State<T>, s': State<T>, vs: seq<T>, k: nat, nodes: seq<Handle>, h: Handle)
    requires Knows(s, PrepConstruct(vs, k, nodes)) && h in s.mem && h !in nodes && h !in s.chain && List(s.mem, s.chain, 0)
    requires s'.mem == s.mem[h := s.mem[h].(v := vs[k])]
    ensures Knows(s', PrepLink(vs, k, nodes, h)) && List(s'.mem, s.chain, 0)
  {
    ListKept(s.mem, s'.mem, s.chain, 0);
    ListKept(s.mem, s'.mem, nodes, 0);
  }

  lemma {:induction false} ConstructPrivate<T>(s: State<T>, s': State<T>, vs: seq<T>, k: nat, nodes: seq<Handle>, h: Handle)
    requires Private(s, PrepConstruct(vs, k, nodes)) && h in s.mem && h !in nodes && h !in s.chain
    requires s'.mem.Keys == s.mem.Keys && s'.chain == s.chain && s'.free == s.free - {h}
    ensures Private(s', PrepLink(vs, k, nodes, h))
  {
    assert forall i :: 0 <= i < |nodes| ==> ([h] + nodes)[i + 1] == nodes[i];
  }

  lemma {:induction false} ConstructKeepsInv<T>(s: State<T>, t: Tid, vs: seq<T>, k: nat, nodes: seq<Handle>, h: Handle, s': State<T>)
    requires Inv(s) && t in s.threads && s.threads[t] == PrepConstruct(vs, k, nodes) && h in s.free && h in s.mem && k < |vs|
    requires s' == Goto(s, t, PrepLink(vs, k, nodes, h)).(free := s.free - {h}, mem := s.mem[h := s.mem[h].(v := vs[k])])
    ensures Inv(s') && h !in s.chain
  {
    hide Knows, List;
    var l := PrepLink(vs, k, nodes, h);
    assert Private(s, s.threads[t]) && h !in nodes;
    ConstructKnows(s, s', vs, k, nodes, h);
    forall u <- s.threads | u != t
      ensures Private(s', s.threads[u]) && KeepsNodes(s, s', Owned(s.threads[u])) && Apart(s.threads[u], l) && Apart(l, s.threads[u])
    {
      assert Private(s, s.threads[u]) && Apart(s.threads[u], s.threads[t]) && Apart(s.threads[t], s.threads[u]);
      assert h !in Owned(s.threads[u]);
    }
    ConstructPrivate(s, s', vs, k, nodes, h);
    StepKeepsInv(s, t, s');
  }

  /** The pool maps a node, or writes to one that is free. */
  lemma {:induction false} PoolShape<T(!new)>(s: State<T>, s': State<T>)
    requires OnStack(s) && s.free <= s.mem.Keys && (forall h <- s.chain :: h !in s.free) && PoolStep(s, s')
    ensures OnStack(s') && s'.chain == s.chain && s'.threads == s.threads && KeepsNodes(s, s', s.chain)
    ensures SharedStep(s, s') && s'.free <= s'.mem.Keys && forall h <- s'.chain :: h !in s'.free
  {
    var h :| h in s'.mem && h != 0 && (h in s.mem ==> h in s.free) && s' == s.(mem := s.mem[h := s'.mem[h]], free := s.free + {h});
    assert h !in s.chain;
    hide List;
    ListKept(s.mem, s'.mem, s.chain, 0);
  }

  lemma {:induction false} PoolPrivate<T(!new)>(s: State<T>, s': State<T>, l: Local<T>)
    requires s.free <= s.mem.Keys && PoolStep(s, s') && Private(s, l)
    ensures Private(s', l) && KeepsNodes(s, s', Owned(l))
  {
    var h :| h in s'.mem && h != 0 && (h in s.mem ==> h in s.free) && s' == s.(mem := s.mem[h := s'.mem[h]], free := s.free + {h});
    hide Distinct;
  }

  lemma {:induction false} PoolKeepsInv<T(!new)>(s: State<T>, s': State<T>)
    requires Inv(s) && PoolStep(s, s')
    ensures Inv(s') && s'.chain == s.chain && s'.threads == s.threads && KeepsNodes(s, s', s.chain)
  {
    hide Knows, Private, OnStack, PoolStep, SharedStep, KeepsNodes;
    PoolShape(s, s');
    forall u <- s.threads
      ensures Knows(s', s'.threads[u]) && Private(s', s'.threads[u])
    {
      PoolPrivate(s, s', s.threads[u]);
      KnowsStable(s, s', s.threads[u]);
    }
  }

  lemma {:induction false} PushShape<T>(s: State<T>, t: Tid, vs: seq<T>, nodes: seq<Handle>, top: Tagged)
    requires Inv(s) && t in s.threads && s.threads[t] == LinkCas(vs, nodes, top) && s.tos == top && nodes != []
    ensures |nodes| <= |vs| && List(s.mem, nodes + s.chain, 0)
    ensures Data(s.mem, nodes + s.chain) == Reverse(vs[..|nodes|]) + Data(s.mem, s.chain)
    ensures forall h <- nodes + s.chain :: h !in s.free
  {
    hide Inv, List, Reverse;
    LinkFacts(s, t, vs, nodes, top);
    assert forall i :: 0 <= i < |nodes| ==> nodes[i] in nodes;
    ListConcat(s.mem, nodes, s.chain);
    DataConcat(s.mem, nodes, s.chain);
  }

  lemma {:induction false} DataConcat<T>(mem: map<Handle, Node<T>>, xs: seq<Handle>, ys: seq<Handle>)
    requires Mapped(mem, xs) && Mapped(mem, ys)
    ensures Mapped(mem, xs + ys) && Data(mem, xs + ys) == Data(mem, xs) + Data(mem, ys)
  {
  }

  /** What a thread about to link its nodes knows of them. */
  lemma {:induction false} LinkFacts<T>(s: State<T>, t: Tid, vs: seq<T>, nodes: seq<Handle>, top: Tagged)
    requires Inv(s) && t in s.threads && s.threads[t] == LinkCas(vs, nodes, top) && s.tos == top && nodes != []
    ensures Accepted(s, vs, nodes) && s.mem[nodes[|nodes| - 1]].next == First(s.chain)
    ensures List(s.mem, s.chain, 0) && Mapped(s.mem, nodes) && Mapped(s.mem, s.chain)
    ensures forall h <- nodes :: h !in s.free && h !in s.chain
    ensures forall h <- s.chain :: h !in s.free
  {
    hide Reverse;
    assert Knows(s, s.threads[t]) && Private(s, s.threads[t]);
  }

  /** A range becomes visible in one step: its nodes, last element first, on top of the stack. */
  lemma {:induction false} PushKeepsInv<T>(s: State<T>, t: Tid, vs: seq<T>, nodes: seq<Handle>, top: Tagged, s': State<T>)
    requires Inv(s) && t in s.threads && s.threads[t] == LinkCas(vs, nodes, top) && s.tos == top && nodes != []
    requires s' == Goto(s, t, PushReturn(|nodes|)).(tos := Tagged(nodes[0], top.tag), chain := nodes + s.chain)
    ensures Inv(s') && |nodes| <= |vs| && Data(s'.mem, s'.chain) == Reverse(vs[..|nodes|]) + Data(s.mem, s.chain)
  {
    hide Knows, List, Data;
    PushShape(s, t, vs, nodes, top);
    ReturnKnows(s', |nodes|);
    forall u <- s.threads | u != t
      ensures Private(s', s.threads[u])
    {
      assert Private(s, s.threads[u]) && Apart(s.threads[u], s.threads[t]);
    }
    StepKeepsInv(s, t, s');
  }

  lemma {:induction false} ReturnKnows<T>(s: State<T>, k: nat)
    requires k > 0
    ensures Knows(s, PushReturn(k))
  {
  }

  lemma {:induction false} ListConcat<T>(mem: map<Handle, Node<T>>, xs: seq<Handle>, ys: seq<Handle>)
    requires xs != [] && OpenList(mem, xs) && mem[xs[|xs| - 1]].next == First(ys) && List(mem, ys, 0)
    requires forall i, j :: 0 <= i < |xs| && 0 <= j < |ys| ==> xs[i] != ys[j]
    ensures List(mem, xs + ys, 0)
  {
    var zs := xs + ys;
    forall i | 0 <= i < |zs| - 1
      ensures mem[zs[i]].next == zs[i + 1]
    {
      if i < |xs| - 1 { assert zs[i] == xs[i]; } else if i >= |xs| { assert zs[i] == ys[i - |xs|]; }
    }
  }

  lemma {:induction false} PopShape<T>(s: State<T>, top: Tagged, next: Handle)
    requires OnStack(s) && Knows(s, PopCas(top, next)) && s.tos == top && s.chain != []
    ensures List(s.mem, s.chain[1..], 0) && First(s.chain[1..]) == next && s.chain[0] == top.ptr && top.ptr !in s.chain[1..]
    ensures forall h <- s.chain[1..] :: h in s.chain
    ensures top.ptr in s.mem && Data(s.mem, s.chain) == [s.mem[top.ptr].v] + Data(s.mem, s.chain[1..])
  {
    hide Knows, List, Data;
    PopCasKnows(s, top, next);
    ListTail(s.mem, s.chain);
    ListMapped(s.mem, s.chain);
    ListMapped(s.mem, s.chain[1..]);
    DataHead(s.mem, s.chain);
  }

  lemma {:induction false} PopCasKnows<T>(s: State<T>, top: Tagged, next: Handle)
    requires Knows(s, PopCas(top, next)) && s.tos == top
    ensures top.ptr in s.mem && s.mem[top.ptr].next == next
  {
  }

  lemma {:induction false} DataHead<T>(mem: map<Handle, Node<T>>, xs: seq<Handle>)
    requires Mapped(mem, xs) && xs != [] && Mapped(mem, xs[1..])
    ensures Data(mem, xs) == [mem[xs[0]].v] + Data(mem, xs[1..])
  {
  }

  /** A successful exchange in `consume_one` removes the current top: an unchanged tag means no pop
      since the load, so the link read then is still the link of the top. */
  lemma {:induction false} PopKeepsInv<T>(s: State<T>, t: Tid, top: Tagged, next: Handle, s': State<T>)
    requires Inv(s) && t in s.threads && s.threads[t] == PopCas(top, next) && s.tos == top && top.ptr in s.mem && s.chain != []
    requires s' == Goto(s, t, PopVisit(top, s.mem[top.ptr].v)).(tos := Tagged(next, top.tag + 1), chain := s.chain[1..])
    ensures Inv(s') && OnStack(s') && Data(s.mem, s.chain) == [s.mem[top.ptr].v] + Data(s'.mem, s'.chain)
  {
    hide Knows, List;
    PopShape(s, top, next);
    assert top.ptr in s.chain;
    VisitKnows(s', top, s.mem[top.ptr].v);
    forall u <- s.threads | u != t
      ensures Private(s', s.threads[u]) && top.ptr !in Owned(s.threads[u])
    {
      assert Private(s, s.threads[u]);
    }
    StepKeepsInv(s, t, s');
  }

  lemma {:induction false} VisitKnows<T>(s: State<T>, top: Tagged, v: T)
    requires top.ptr in s.mem && s.mem[top.ptr].v == v
    ensures Knows(s, PopVisit(top, v))
  {
  }

  lemma {:induction false} ListTail<T>(mem: map<Handle, Node<T>>, xs: seq<Handle>)
    requires List(mem, xs, 0) && xs != []
    ensures List(mem, xs[1..], 0) && mem[xs[0]].next == First(xs[1..]) && xs[0] !in xs[1..]
    ensures xs[0] in mem && forall h <- xs[1..] :: h in xs && h in mem
  {
    assert forall i :: 0 <= i < |xs[1..]| ==> xs[1..][i] == xs[i + 1];
  }

  /** Taking everything: the whole stack becomes private in one step. */
  lemma {:induction false} TakeKeepsInv<T>(s: State<T>, t: Tid, l: Local<T>, s': State<T>)
    requires Inv(s) && t in s.threads && Owned(s.threads[t]) == [] && Owned(l) == s.chain
    requires s' == Goto(s, t, l).(tos := Tagged(0, s.tos.tag + 1), chain := [])
    requires Knows(s', l)
    ensures Inv(s') && OnStack(s')
  {
    hide Knows;
    forall u <- s.threads | u != t
      ensures Private(s', s.threads[u]) && Apart(s.threads[u], l) && Apart(l, s.threads[u])
    {
      assert Private(s, s.threads[u]);
    }
    StepKeepsInv(s, t, s');
  }

  /** What the thread holds after taking everything, for both orders. */
  lemma {:induction false} TakenKnows<T>(s: State<T>, s': State<T>, rev: bool)
    requires OnStack(s) && s.chain != [] && s'.mem == s.mem
    ensures
      var d := Data(s.mem, s.chain);
      var l := if rev then RevRead(s.tos.ptr, 0, s.chain, [], Reverse(d)) else WalkVisit(s.tos.ptr, [], s.chain, d);
      Knows(s', l) && Owned(l) == s.chain
  {
    hide Reverse;
    var d := Data(s.mem, s.chain);
    assert d == [] + d && s.chain + [] == s.chain && s.tos.ptr == First(s.chain);
    if rev { NothingTurned(s'.mem, d); }
  }

  lemma {:induction false} NothingTurned<T>(mem: map<Handle, Node<T>>, d: seq<T>)
    ensures Reverse(d) == Reverse(d) + Data(mem, []) && List(mem, [], 0)
  {
  }

  /** Putting a node in front of a list by writing its link. */
  lemma {:induction false} ListCons<T>(mem: map<Handle, Node<T>>, mem': map<Handle, Node<T>>, n: Handle, xs: seq<Handle>)
    requires List(mem, xs, 0) && n in mem && n !in xs && mem' == mem[n := mem[n].(next := First(xs))]
    ensures List(mem', [n] + xs, 0) && Data(mem', [n] + xs) == [mem[n].v] + Data(mem, xs)
  {
    ListKept(mem, mem', xs, 0);
    var ys := [n] + xs;
    forall i | 0 <= i < |ys| - 1
      ensures mem'[ys[i]].next == ys[i + 1]
    {
      if i > 0 { assert ys[i] == xs[i - 1] && mem'[xs[i - 1]].next == xs[i]; }
    }
  }

  /** Reversing one link in place. */
  lemma {:induction false} RevStoreKnows<T>(s: State<T>, s': State<T>, cur: Handle, last: Handle, next: Handle,
      rest: seq<Handle>, done: seq<Handle>, order: seq<T>, l: Local<T>)
    requires Reversing(s, cur, last, rest, done, order) && s.mem[cur].next == next && Distinct(rest + done) && 0 !in s.mem
    requires s'.mem == s.mem[cur := s.mem[cur].(next := last)]
    requires l == if next == 0 then WalkVisit(cur, [], [cur] + done, order) else RevRead(next, cur, rest[1..], [cur] + done, order)
    ensures Knows(s', l) && Distinct(Owned(l)) && forall h <- Owned(l) :: h in rest + done
  {
    hide List, Distinct, Mapped, Data;
    var more := [cur] + done;
    RotateDistinct(rest, done);
    ListTail(s.mem, rest);
    ListCons(s.mem, s'.mem, cur, done);
    ListKept(s.mem, s'.mem, rest[1..], 0);
    ListMapped(s.mem, rest);
    ListMapped(s.mem, done);
    ListMapped(s'.mem, more);
    ListMapped(s'.mem, rest[1..]);
    RevOrder(s, s', cur, rest, done, order);
    assert next == 0 ==> rest[1..] == [];
    if next == 0 { RevLast(s'.mem, rest[1..], more); }
  }

  lemma {:induction false} RevLast<T>(mem: map<Handle, Node<T>>, none: seq<Handle>, more: seq<Handle>)
    requires none == [] && Mapped(mem, more) && Mapped(mem, none)
    ensures [] + Data(mem, more) == Reverse(Data(mem, none)) + Data(mem, more)
  {
  }

  lemma {:induction false} ListMapped<T>(mem: map<Handle, Node<T>>, xs: seq<Handle>)
    requires List(mem, xs, 0)
    ensures Mapped(mem, xs)
  {
  }

  lemma {:induction false} RevOrder<T>(s: State<T>, s': State<T>, cur: Handle, rest: seq<Handle>, done: seq<Handle>, order: seq<T>)
    requires rest != [] && rest[0] == cur && Mapped(s.mem, rest) && Mapped(s.mem, done) && Mapped(s'.mem, [cur] + done) && Mapped(s'.mem, rest[1..])
    requires order == Reverse(Data(s.mem, rest)) + Data(s.mem, done)
    requires Data(s'.mem, [cur] + done) == [s.mem[cur].v] + Data(s.mem, done) && Data(s'.mem, rest[1..]) == Data(s.mem, rest[1..])
    ensures order == Reverse(Data(s'.mem, rest[1..])) + Data(s'.mem, [cur] + done)
  {
    ReverseStep(Data(s.mem, rest));
    assert Data(s.mem, rest)[1..] == Data(s.mem, rest[1..]);
  }

  lemma {:induction false} ReverseStep<X>(xs: seq<X>)
    requires xs != []
    ensures Reverse(xs) == Reverse(xs[1..]) + [xs[0]]
  {
  }

  lemma {:induction false} RotateDistinct(rest: seq<Handle>, done: seq<Handle>)
    requires rest != [] && Distinct(rest + done)
    ensures Distinct(rest[1..] + ([rest[0]] + done)) && Distinct([rest[0]] + done) && rest[0] !in done
    ensures forall h <- rest[1..] + ([rest[0]] + done) :: h in rest + done
  {
    var a, b := rest + done, rest[1..] + ([rest[0]] + done);
    forall i, j | 0 <= i < j < |b|
      ensures b[i] != b[j]
    {
      var i', j' := if i < |rest| - 1 then i + 1 else if i == |rest| - 1 then 0 else i, if j < |rest| - 1 then j + 1 else if j == |rest| - 1 then 0 else j;
      assert b[i] == a[i'] && b[j] == a[j'];
    }
    forall i, j | 0 <= i < j < |[rest[0]] + done|
      ensures ([rest[0]] + done)[i] != ([rest[0]] + done)[j]
    {
      assert ([rest[0]] + done)[i] == b[|rest| - 1 + i] && ([rest[0]] + done)[j] == b[|rest| - 1 + j];
    }
    forall k | 0 <= k < |done| ensures done[k] != rest[0] {
      assert a[|rest| + k] == done[k] && a[0] == rest[0];
    }
  }

  /** The node list grows by one node at the top. */
  lemma {:induction false} PrepLinkKnows<T>(s: State<T>, s': State<T>, vs: seq<T>, k: nat, nodes: seq<Handle>, n: Handle, l: Local<T>)
    requires Knows(s, PrepLink(vs, k, nodes, n)) && Distinct([n] + nodes)
    requires s'.mem == s.mem[n := s.mem[n].(next := if nodes == [] then 0 else nodes[0])]
    requires l == if k + 1 == |vs| then LinkLoad(vs, [n] + nodes) else PrepConstruct(vs, k + 1, [n] + nodes)
    ensures Knows(s', l)
  {
    var more := [n] + nodes;
    assert n !in nodes by { assert more[0] == n && forall i :: 0 <= i < |nodes| ==> more[i + 1] == nodes[i]; }
    ListCons(s.mem, s'.mem, n, nodes);
    assert vs[..k + 1] == vs[..k] + [vs[k]];
    ReverseAppend(vs[..k], vs[k]);
  }

  lemma {:induction false} ReverseAppend<X>(xs: seq<X>, x: X)
    ensures Reverse(xs + [x]) == [x] + Reverse(xs)
  {
    var a, b := Reverse(xs + [x]), [x] + Reverse(xs);
    assert |a| == |b| && forall i :: 0 <= i < |a| ==> a[i] == b[i];
  }

  lemma {:induction false} LinkStoreKnows<T>(s: State<T>, s': State<T>, vs: seq<T>, nodes: seq<Handle>, top: Tagged)
    requires Accepted(s, vs, nodes)
    requires var e := nodes[|nodes| - 1]; s'.mem == s.mem[e := s.mem[e].(next := top.ptr)]
    ensures Knows(s', LinkCas(vs, nodes, top))
  {
    assert List(s'.mem, nodes, top.ptr);
    assert Data(s'.mem, nodes) == Data(s.mem, nodes);
  }

  // ---------------------------------------------------------------- all steps

  lemma {:induction false} Known<T>(s: State<T>, t: Tid)
    requires Inv(s) && t in s.threads
    ensures OnStack(s) && Knows(s, s.threads[t]) && Private(s, s.threads[t])
  {
  }

  /** How far the atomic operation behind a thread's control point has got. */
  function Progress<T>(l: Local<T>): Status<T> {
    match l
    case Ready => Idle
    case PrepConstruct(vs, _, _) => PushPending(vs)
    case PrepLink(vs, _, _, _) => PushPending(vs)
    case PushFailed(vs) => PushPending(vs)
    case LinkLoad(vs, _) => PushPending(vs)
    case LinkStore(vs, _, _) => PushPending(vs)
    case LinkCas(vs, _, _) => PushPending(vs)
    case PushReturn(k) => PushDone(k)
    case PopLoad => PopPending
    case PopReadNext(_) => PopPending
    case PopCas(_, _) => PopPending
    case PopVisit(_, v) => PopDone(Some(v))
    case PopDestruct(_, ret) => PopDone(Some(ret))
    case PopReturn(r) => PopDone(r)
    case TakeLoad(rev) => TakePending(rev)
    case TakeCas(rev, _) => TakePending(rev)
    case RevRead(_, _, _, _, order) => TakeDone(order)
    case RevStore(_, _, _, _, _, order) => TakeDone(order)
    case WalkVisit(_, _, _, order) => TakeDone(order)
    case WalkNext(_, _, _, order) => TakeDone(order)
    case WalkDestruct(_, _, _, _, order) => TakeDone(order)
    case TakeReturn(_, order) => TakeDone(order)
  }

  /** The stack as values, top first. */
  ghost function Contents<T>(s: State<T>): seq<T>
    requires OnStack(s)
  {
    Data(s.mem, s.chain)
  }

  /** A step of thread `t` keeps the invariant and does to the contents and to the operation behind
      the thread what label `l` says. */
  ghost predicate Simulates<T(!new)>(s: State<T>, t: Tid, l: Label<T>, s': State<T>)
    requires OnStack(s) && t in s.threads
  {
    && Inv(s') && t in s'.threads && s'.threads == s.threads[t := s'.threads[t]]
    && var p, p', a, b := Progress(s.threads[t]), Progress(s'.threads[t]), Contents(s), Contents(s');
       match l
       case Tau => b == a && p' == p
       case CallPush(u, vs) => u == t && vs != [] && b == a && p == Idle && p' == PushPending(vs)
       case DoPush(u, ws) => u == t && ws != [] && b == Reverse(ws) + a && p.PushPending? && ws <= p.vs && p' == PushDone(|ws|)
       case RetPush(u, k) => u == t && b == a && p' == Idle && (if k > 0 then p == PushDone(k) else p.PushPending?)
       case CallPop(u) => u == t && b == a && p == Idle && p' == PopPending
       case DoPop(u, r) => u == t && p == PopPending && p' == PopDone(r) && (if r.Some? then a == [r.value] + b else a == b == [])
       case RetPop(u, r) => u == t && b == a && p == PopDone(r) && p' == Idle
       case CallTake(u, rev) => u == t && b == a && p == Idle && p' == TakePending(rev)
       case DoTake(u) => u == t && b == [] && p.TakePending? && p' == TakeDone(if p.reversed then Reverse(a) else a)
       case RetTake(u, vs) => u == t && b == a && p == TakeDone(vs) && p' == Idle
  }

  /** A step that leaves the stack alone: contents unchanged. */
  lemma {:induction false} SameContents<T>(s: State<T>, s': State<T>)
    requires OnStack(s) && OnStack(s') && s'.chain == s.chain && KeepsNodes(s, s', s.chain)
    ensures Contents(s') == Contents(s)
  {
    forall i | 0 <= i < |s.chain| ensures s'.mem[s.chain[i]].v == s.mem[s.chain[i]].v { assert s.chain[i] in s.chain; }
  }

  /** A label that moves the operation of `t` from `p` to `p'` without touching the stack. */
  ghost predicate Neutral<T>(l: Label<T>, t: Tid, p: Status<T>, p': Status<T>) {
    match l
    case Tau => p' == p
    case CallPush(u, vs) => u == t && vs != [] && p == Idle && p' == PushPending(vs)
    case RetPush(u, k) => u == t && p' == Idle && (if k > 0 then p == PushDone(k) else p.PushPending?)
    case CallPop(u) => u == t && p == Idle && p' == PopPending
    case RetPop(u, r) => u == t && p == PopDone(r) && p' == Idle
    case CallTake(u, rev) => u == t && p == Idle && p' == TakePending(rev)
    case RetTake(u, vs) => u == t && p == TakeDone(vs) && p' == Idle
    case _ => false
  }

  lemma {:induction false} NeutralSimulates<T(!new)>(s: State<T>, t: Tid, l: Label<T>, s': State<T>)
    requires Inv(s) && Inv(s') && t in s.threads && t in s'.threads && s'.threads == s.threads[t := s'.threads[t]]
    requires s'.chain == s.chain && KeepsNodes(s, s', s.chain)
    requires Neutral(l, t, Progress(s.threads[t]), Progress(s'.threads[t]))
    ensures Simulates(s, t, l, s')
  {
    SameContents(s, s');
    hide Inv, Contents, Progress, KeepsNodes;
  }

  lemma {:induction false} LocalSimulates<T(!new)>(s: State<T>, t: Tid, l: Label<T>, m: Local<T>)
    requires Inv(s) && t in s.threads && (Owned(m) == Owned(s.threads[t]) || Owned(m) == []) && Knows(s, m)
    requires Neutral(l, t, Progress(s.threads[t]), Progress(m))
    ensures Simulates(s, t, l, Goto(s, t, m))
  {
    LocalStepKeepsInv(s, t, m);
    hide Inv, Knows, Progress, Neutral;
    NeutralSimulates(s, t, l, Goto(s, t, m));
  }

  lemma {:induction false} WriteSimulates<T(!new)>(s: State<T>, t: Tid, l: Label<T>, m: Local<T>, n: Handle, x: Node<T>)
    requires Inv(s) && t in s.threads && n in Owned(s.threads[t])
    requires Distinct(Owned(m)) && forall h <- Owned(m) :: h in Owned(s.threads[t])
    requires Knows(Goto(s, t, m).(mem := s.mem[n := x]), m)
    requires Neutral(l, t, Progress(s.threads[t]), Progress(m))
    ensures Simulates(s, t, l, Goto(s, t, m).(mem := s.mem[n := x]))
  {
    OwnWriteKeepsInv(s, t, m, n, x);
    Known(s, t);
    hide Inv, Knows, Progress, Neutral;
    NeutralSimulates(s, t, l, Goto(s, t, m).(mem := s.mem[n := x]));
  }

  lemma {:induction false} FreeSimulates<T(!new)>(s: State<T>, t: Tid, l: Label<T>, m: Local<T>, n: Handle)
    requires Inv(s) && t in s.threads && n in Owned(s.threads[t]) && n !in Owned(m)
    requires Distinct(Owned(m)) && forall h <- Owned(m) :: h in Owned(s.threads[t])
    requires Knows(s, m) && Neutral(l, t, Progress(s.threads[t]), Progress(m))
    ensures Simulates(s, t, l, Goto(s, t, m).(free := s.free + {n}))
  {
    DestructKeepsInv(s, t, m, n);
    hide Inv, Knows, Progress, Neutral;
    NeutralSimulates(s, t, l, Goto(s, t, m).(free := s.free + {n}));
  }

  lemma {:induction false} PushReads<T(!new)>(s: State<T>, t: Tid, l: Label<T>, s': State<T>)
    requires t in s.threads && Knows(s, s.threads[t]) && PushStep(s, t, l, s') && !l.DoPush?
    requires var c := s.threads[t]; !c.PrepConstruct? && !c.PrepLink? && !c.LinkStore?
    ensures t in s'.threads && s' == Goto(s, t, s'.threads[t]) && Knows(s, s'.threads[t])
    ensures Owned(s'.threads[t]) == Owned(s.threads[t]) || Owned(s'.threads[t]) == []
    ensures Neutral(l, t, Progress(s.threads[t]), Progress(s'.threads[t]))
  {
  }

  lemma {:induction false} PushSimulates<T(!new)>(s: State<T>, t: Tid, l: Label<T>, s': State<T>)
    requires Inv(s) && t in s.threads && PushStep(s, t, l, s')
    ensures Simulates(s, t, l, s')
  {
    Known(s, t);
    hide Inv, Simulates, Private, OnStack;
    var c := s.threads[t];
    if c.PrepConstruct? {
      PrepConstructSimulates(s, t, l, s');
    } else if c.PrepLink? || c.LinkStore? {
      LinkSimulates(s, t, l, s');
    } else if l.DoPush? {
      PushEffect(s, t, l, s');
    } else {
      PushReads(s, t, l, s');
      LocalSimulates(s, t, l, s'.threads[t]);
    }
  }

  lemma {:induction false} LinkSimulates<T(!new)>(s: State<T>, t: Tid, l: Label<T>, s': State<T>)
    requires Inv(s) && t in s.threads && PushStep(s, t, l, s') && (s.threads[t].PrepLink? || s.threads[t].LinkStore?)
    ensures Simulates(s, t, l, s')
  {
    Known(s, t);
    hide Inv, Simulates;
    var c, m := s.threads[t], s'.threads[t];
    if c.PrepLink? {
      PrepLinkKnows(s, s', c.vs, c.k, c.nodes, c.n, m);
      WriteSimulates(s, t, l, m, c.n, s'.mem[c.n]);
    } else {
      LinkStoreKnows(s, s', c.vs, c.nodes, c.top);
      var e := c.nodes[|c.nodes| - 1];
      WriteSimulates(s, t, l, m, e, s'.mem[e]);
    }
  }

  lemma {:induction false} PushEffect<T(!new)>(s: State<T>, t: Tid, l: Label<T>, s': State<T>)
    requires Inv(s) && t in s.threads && PushStep(s, t, l, s') && l.DoPush?
    ensures Simulates(s, t, l, s')
  {
    var LinkCas(vs, nodes, top) := s.threads[t];
    PushKeepsInv(s, t, vs, nodes, top, s');
    hide Knows, Private;
  }

  lemma {:induction false} PrepConstructSimulates<T(!new)>(s: State<T>, t: Tid, l: Label<T>, s': State<T>)
    requires Inv(s) && t in s.threads && s.threads[t].PrepConstruct? && PushStep(s, t, l, s')
    ensures Simulates(s, t, l, s')
  {
    hide Inv, Simulates, Knows, List, OnStack, Private;
    var PrepConstruct(vs, k, nodes) := s.threads[t];
    if s' == Goto(s, t, if k == 0 then PushFailed(vs) else LinkLoad(vs, nodes)) {
      Known(s, t);
      GaveUpKnows(s, vs, k, nodes);
      LocalSimulates(s, t, l, s'.threads[t]);
    } else {
      var h :| h in s.free && h in s.mem &&
        s' == Goto(s, t, PrepLink(vs, k, nodes, h)).(free := s.free - {h}, mem := s.mem[h := s.mem[h].(v := vs[k])]);
      ConstructKeepsInv(s, t, vs, k, nodes, h, s');
      NeutralSimulates(s, t, l, s');
    }
  }

  /** When the pool is exhausted, what has been linked so far is pushed. */
  lemma {:induction false} GaveUpKnows<T>(s: State<T>, vs: seq<T>, k: nat, nodes: seq<Handle>)
    requires Knows(s, PrepConstruct(vs, k, nodes))
    ensures
      var m := if k == 0 then PushFailed(vs) else LinkLoad(vs, nodes);
      Knows(s, m) && (Owned(m) == nodes || Owned(m) == [])
  {
  }

  lemma {:induction false} PopReads<T(!new)>(s: State<T>, t: Tid, l: Label<T>, s': State<T>)
    requires OnStack(s) && t in s.threads && Knows(s, s.threads[t]) && PopStep(s, t, l, s') && !l.DoPop? && !s.threads[t].PopDestruct?
    ensures t in s'.threads && s' == Goto(s, t, s'.threads[t]) && Knows(s, s'.threads[t])
    ensures Owned(s'.threads[t]) == Owned(s.threads[t]) || Owned(s'.threads[t]) == []
    ensures Neutral(l, t, Progress(s.threads[t]), Progress(s'.threads[t]))
  {
  }

  lemma {:induction false} PopSimulates<T(!new)>(s: State<T>, t: Tid, l: Label<T>, s': State<T>)
    requires Inv(s) && t in s.threads && PopStep(s, t, l, s')
    ensures Simulates(s, t, l, s')
  {
    Known(s, t);
    hide Inv, Simulates;
    if l.DoPop? {
      PopEffect(s, t, l, s');
    } else if s.threads[t].PopDestruct? {
      FreeSimulates(s, t, l, s'.threads[t], s.threads[t].top.ptr);
    } else {
      hide OnStack, Private;
      PopReads(s, t, l, s');
      LocalSimulates(s, t, l, s'.threads[t]);
    }
  }

  lemma {:induction false} NullTop<T>(s: State<T>)
    requires OnStack(s)
    ensures (s.tos.ptr == 0 <==> s.chain == []) && 0 !in s.mem && s.tos.ptr == First(s.chain)
  {
    assert s.chain != [] ==> s.chain[0] in s.mem;
  }

  lemma {:induction false} EmptyStepKeepsInv<T>(s: State<T>, t: Tid, m: Local<T>)
    requires Inv(s) && t in s.threads && (m == PopReturn(None) || m == TakeReturn([], []))
    ensures Inv(Goto(s, t, m)) && OnStack(Goto(s, t, m)) && OnStack(s)
  {
    LocalStepKeepsInv(s, t, m);
  }

  /** Popping: the current top, or the answer "empty" while the stack is empty. */
  lemma {:induction false} PopEffect<T(!new)>(s: State<T>, t: Tid, l: Label<T>, s': State<T>)
    requires Inv(s) && t in s.threads && PopStep(s, t, l, s') && l.DoPop?
    ensures Simulates(s, t, l, s')
  {
    hide Inv, OnStack, Knows, Private, List;
    Known(s, t);
    NullTop(s);
    if l.r.Some? {
      var PopCas(top, next) := s.threads[t];
      PopKeepsInv(s, t, top, next, s');
    } else {
      EmptyStepKeepsInv(s, t, PopReturn(None));
    }
  }

  lemma {:induction false} TakeReads<T(!new)>(s: State<T>, t: Tid, l: Label<T>, s': State<T>)
    requires t in s.threads && Knows(s, s.threads[t]) && TakeStep(s, t, l, s') && !l.DoTake?
    requires var c := s.threads[t]; !c.RevStore? && !c.WalkDestruct?
    ensures t in s'.threads && s' == Goto(s, t, s'.threads[t]) && Knows(s, s'.threads[t])
    ensures Owned(s'.threads[t]) == Owned(s.threads[t]) || Owned(s'.threads[t]) == []
    ensures Neutral(l, t, Progress(s.threads[t]), Progress(s'.threads[t]))
  {
    hide List, TopSeen, Accepted;
    var c := s.threads[t];
    if c.WalkVisit? { WalkVisited(s, c.cur, c.seen, c.rest); }
  }

  lemma {:induction false} WalkVisited<T>(s: State<T>, cur: Handle, seen: seq<T>, rest: seq<Handle>)
    requires Walking(s, cur, rest)
    ensures seen + Data(s.mem, rest) == seen + [s.mem[cur].v] + Data(s.mem, rest[1..])
  {
  }

  lemma {:induction false} TakeSimulates<T(!new)>(s: State<T>, t: Tid, l: Label<T>, s': State<T>)
    requires Inv(s) && t in s.threads && TakeStep(s, t, l, s')
    ensures Simulates(s, t, l, s')
  {
    Known(s, t);
    hide Inv, Simulates, OnStack, Private, Knows;
    var c := s.threads[t];
    if l.DoTake? {
      TakeEffect(s, t, l, s');
    } else if c.RevStore? {
      RevStoreSimulates(s, t, l, s');
    } else if c.WalkDestruct? {
      WalkDestructSimulates(s, t, l, s');
    } else {
      TakeReads(s, t, l, s');
      LocalSimulates(s, t, l, s'.threads[t]);
    }
  }

  /** Taking all: the contents are detached in one step, to be visited in the order asked for. */
  lemma {:induction false} TakeEffect<T(!new)>(s: State<T>, t: Tid, l: Label<T>, s': State<T>)
    requires Inv(s) && t in s.threads && TakeStep(s, t, l, s') && l.DoTake?
    ensures Simulates(s, t, l, s')
  {
    hide Inv, OnStack, Knows, Private, List;
    Known(s, t);
    NullTop(s);
    if s.tos.ptr == 0 {
      EmptyStepKeepsInv(s, t, TakeReturn([], []));
    } else {
      TakenKnows(s, s', s.threads[t].reversed);
      TakeKeepsInv(s, t, s'.threads[t], s');
    }
  }

  lemma {:induction false} RevStoreSimulates<T(!new)>(s: State<T>, t: Tid, l: Label<T>, s': State<T>)
    requires Inv(s) && t in s.threads && s.threads[t].RevStore? && TakeStep(s, t, l, s')
    ensures Simulates(s, t, l, s')
  {
    Known(s, t);
    hide Inv, Simulates;
    var RevStore(cur, last, next, rest, done, order) := s.threads[t];
    RevStoreKnows(s, s', cur, last, next, rest, done, order, s'.threads[t]);
    assert (rest + done)[0] == cur;
    hide Knows, List;
    WriteSimulates(s, t, l, s'.threads[t], cur, s'.mem[cur]);
  }

  /** Visiting the detached nodes: each is read, then its link, then it goes back to the pool. */
  lemma {:induction false} WalkDestructSimulates<T(!new)>(s: State<T>, t: Tid, l: Label<T>, s': State<T>)
    requires Inv(s) && t in s.threads && s.threads[t].WalkDestruct? && TakeStep(s, t, l, s')
    ensures Simulates(s, t, l, s')
  {
    Known(s, t);
    hide Inv, Simulates;
    var WalkDestruct(cur, next, seen, rest, order) := s.threads[t];
    WalkOn(s, cur, next, seen, rest, order, s'.threads[t]);
    hide Knows, List, Private;
    FreeSimulates(s, t, l, s'.threads[t], cur);
  }

  lemma {:induction false} WalkOn<T>(s: State<T>, cur: Handle, next: Handle, seen: seq<T>, rest: seq<Handle>, order: seq<T>, m: Local<T>)
    requires Knows(s, WalkDestruct(cur, next, seen, rest, order)) && 0 !in s.mem
    requires m == if next == 0 then TakeReturn(seen, order) else WalkVisit(next, seen, rest[1..], order)
    ensures Knows(s, m) && Distinct(Owned(m)) && cur !in Owned(m) && cur in rest && forall h <- Owned(m) :: h in rest
  {
    ListTail(s.mem, rest);
    assert rest[1..] != [] ==> rest[1..][0] in s.mem;
    assert rest[1..] == [] ==> seen + Data(s.mem, rest[1..]) == seen;
  }

  // ---------------------------------------------------------------- refinement

  ghost function Abs<T>(s: State<T>): Spec<T>
    requires OnStack(s)
  {
    Spec(Contents(s), map t <- s.threads :: Progress(s.threads[t]))
  }

  lemma {:induction false} StatusMoves<T>(s: State<T>, t: Tid, s': State<T>)
    requires OnStack(s) && OnStack(s') && t in s.threads && t in s'.threads && s'.threads == s.threads[t := s'.threads[t]]
    ensures Moves(Abs(s).status, t, Progress(s.threads[t]), Progress(s'.threads[t]), Abs(s').status)
  {
    assert Abs(s').status == Abs(s).status[t := Progress(s'.threads[t])];
  }

  lemma {:induction false} ThreadSimulates<T(!new)>(s: State<T>, t: Tid, l: Label<T>, s': State<T>)
    requires Inv(s) && t in s.threads && ThreadStep(s, t, l, s')
    ensures Simulates(s, t, l, s')
  {
    hide Inv, Simulates, PushStep, PopStep, TakeStep;
    if PushStep(s, t, l, s') {
      PushSimulates(s, t, l, s');
    } else if PopStep(s, t, l, s') {
      PopSimulates(s, t, l, s');
    } else {
      TakeSimulates(s, t, l, s');
    }
  }

  lemma {:induction false} StepRefines<T(!new)>(s: State<T>, t: Tid, l: Label<T>, s': State<T>)
    requires OnStack(s) && t in s.threads && Simulates(s, t, l, s')
    ensures OnStack(s') && StackSpec.Next(Abs(s), l, Abs(s'))
  {
    hide List, Contents, Progress, Knows, Private;
    StatusMoves(s, t, s');
    assert l == Tau ==> Abs(s').status == Abs(s).status;
  }

  lemma {:induction false} NextRefines<T(!new)>(s: State<T>, l: Label<T>, s': State<T>)
    requires Inv(s) && Next(s, l, s')
    ensures OnStack(s) && Inv(s') && OnStack(s') && StackSpec.Next(Abs(s), l, Abs(s'))
  {
    hide Knows, Private, List, ThreadStep, StackSpec.Next;
    if l == Tau && PoolStep(s, s') {
      PoolRefines(s, s');
    } else {
      var t :| t in s.threads && ThreadStep(s, t, l, s');
      ThreadSimulates(s, t, l, s');
      StepRefines(s, t, l, s');
    }
  }

  lemma {:induction false} PoolRefines<T(!new)>(s: State<T>, s': State<T>)
    requires Inv(s) && PoolStep(s, s')
    ensures OnStack(s) && Inv(s') && OnStack(s') && StackSpec.Next(Abs(s), Tau, Abs(s'))
  {
    hide Knows, Private, List, PoolStep;
    PoolKeepsInv(s, s');
    SameContents(s, s');
  }

  lemma {:induction false} InitHasInv<T>(s: State<T>)
    requires Init(s)
    ensures Inv(s)
  {
    assert forall t <- s.threads :: s.threads[t] in s.threads.Values;
  }

  /** The invariant holds in every reachable state. */
  lemma {:induction false} RunHasInv<T(!new)>(run: seq<State<T>>, labels: seq<Label<T>>, i: nat)
    requires IsRun(run, labels) && i < |run|
    ensures Inv(run[i]) && OnStack(run[i])
  {
    hide Inv, Next, Init, OnStack;
    if i == 0 {
      InitHasInv(run[0]);
      InvOnStack(run[0]);
    } else {
      RunHasInv(run, labels, i - 1);
      assert Next(run[i - 1], labels[i - 1], run[i]);
      NextRefines(run[i - 1], labels[i - 1], run[i]);
    }
  }

  lemma {:induction false} InvOnStack<T>(s: State<T>)
    requires Inv(s)
    ensures OnStack(s)
  {
  }

  ghost function AbsRun<T>(run: seq<State<T>>): seq<Spec<T>>
    requires forall i :: 0 <= i < |run| ==> OnStack(run[i])
  {
    seq(|run|, i requires 0 <= i < |run| => Abs(run[i]))
  }

  /** Linearizability: every run of any number of threads, with node reuse, is step for step a run of
      the atomic stack with the same calls, effects and answers. In particular a range appears at once
      in reversed order, a pop removes the current top, and `consume_all_atomic` and its reversed form
      visit every element they detached exactly once, top to bottom or bottom to top. */
  lemma {:induction false} Linearizable<T(!new)>(run: seq<State<T>>, labels: seq<Label<T>>)
    requires IsRun(run, labels)
    ensures forall i :: 0 <= i < |run| ==> OnStack(run[i])
    ensures StackSpec.IsRun(AbsRun(run), labels)
  {
    hide Inv, Next, StackSpec.Next, OnStack;
    forall i | 0 <= i < |run| ensures Inv(run[i]) && OnStack(run[i]) { RunHasInv(run, labels, i); }
    var abs := AbsRun(run);
    assert StackSpec.Init(abs[0]) by {
      assert forall t <- run[0].threads :: run[0].threads[t] in run[0].threads.Values;
    }
    forall i | 0 <= i < |labels| ensures StackSpec.Next(abs[i], labels[i], abs[i + 1]) {
      NextRefines(run[i], labels[i], run[i + 1]);
    }
  }

  /** Over every run of the concrete machine, what was pushed is what was removed and what is linked. */
  lemma {:induction false} ConservedRuns<T(!new)>(run: seq<State<T>>, labels: seq<Label<T>>)
    requires IsRun(run, labels)
    ensures forall i :: 0 <= i < |run| ==> OnStack(run[i])
    ensures multiset(StackSpec.Pushed(labels)) ==
      multiset(StackSpec.Removed(AbsRun(run), labels)) + multiset(Contents(run[|labels|]))
  {
    hide IsRun, OnStack;
    Linearizable(run, labels);
    StackSpec.Conserved(AbsRun(run), labels);
    assert AbsRun(run)[|labels|] == Abs(run[|labels|]);
  }

  /** The node whose fields the next step of a thread reads or writes. */
  function Accessed<T>(l: Local<T>): set<Handle> {
    match l
    case PrepLink(_, _, _, n) => {n}
    case LinkStore(_, nodes, _) => if nodes == [] then {} else {nodes[|nodes| - 1]}
    case PopReadNext(top) => {top.ptr}
    case PopVisit(top, _) => {top.ptr}
    case RevRead(cur, _, _, _, _) => {cur}
    case RevStore(cur, _, _, _, _, _) => {cur}
    case WalkVisit(cur, _, _, _) => {cur}
    case WalkNext(cur, _, _, _) => {cur}
    case _ => {}
  }

  /** No thread ever dereferences null or an unmapped node, however stale its handles are, and a node it
      has taken is neither in the pool nor on the stack nor taken by another thread, so that none is
      destroyed or freed twice. */
  lemma {:induction false} MemorySafe<T(!new)>(run: seq<State<T>>, labels: seq<Label<T>>, i: nat, t: Tid)
    requires IsRun(run, labels) && i < |run| && t in run[i].threads
    ensures var s := run[i];
      && Accessed(s.threads[t]) <= s.mem.Keys && 0 !in s.mem
      && forall h <- Owned(s.threads[t]) ::
           h !in s.free && h !in s.chain && forall u <- s.threads :: u != t ==> h !in Owned(s.threads[u])
  {
    RunHasInv(run, labels, i);
    Known(run[i], t);
    forall u <- run[i].threads | u != t ensures Apart(run[i].threads[t], run[i].threads[u]) {}
  }
}
