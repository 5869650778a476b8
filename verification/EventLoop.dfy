/** libco's event loop over the intrusive lists and the timing wheel: waits registered by `co_poll_inner`
    and `co_cond_timedwait`, woken by descriptor events, timeouts and signals.

    A wait is named by its timeout item. A condition wait has a second item, its entry in the queue of
    the condition. Resuming the waiting coroutine and the clean-up it does first are one step of the
    loop. `waiting` and `processed` are auxiliary: the waits registered and not yet processed, and the
    waits processed, in order. */
module EventLoop {
  import opened IntrusiveList
  import opened TimingWheel

  const MAX_TIMEOUT: int := 40_000

  function AtMost(ms: int): int {
    if ms > MAX_TIMEOUT then MAX_TIMEOUT else ms
  }

  ghost predicate Inverse(timerOf: map<Item, Item>, entryOf: map<Item, Item>) {
    && (forall e :: e in timerOf ==> timerOf[e] in entryOf && entryOf[timerOf[e]] == e)
    && (forall w :: w in entryOf ==> entryOf[w] in timerOf && timerOf[entryOf[w]] == w)
  }

  lemma {:induction false} InverseWith(timerOf: map<Item, Item>, entryOf: map<Item, Item>, e: Item, t: Item)
    requires Inverse(timerOf, entryOf) && e !in timerOf && t !in entryOf
    ensures Inverse(timerOf[e := t], entryOf[t := e])
    ensures forall w :: w in entryOf ==> entryOf[w] in timerOf && entryOf[w] != e
  {
  }

  lemma {:induction false} InverseEntries(timerOf: map<Item, Item>, entryOf: map<Item, Item>)
    requires Inverse(timerOf, entryOf)
    ensures forall w :: w in entryOf ==> entryOf[w] in timerOf && timerOf[entryOf[w]] == w
    ensures forall e :: e in timerOf ==> timerOf[e] in entryOf && entryOf[timerOf[e]] == e
  {
  }

  /** Nothing is processed twice, or processed and still waiting. */
  ghost predicate Once(processed: seq<Item>, waiting: set<Item>) {
    && (forall j, k :: 0 <= j < k < |processed| ==> processed[j] != processed[k])
    && (forall k :: 0 <= k < |processed| ==> processed[k] !in waiting)
  }

  lemma {:induction false} OnceMore(processed: seq<Item>, waiting: set<Item>, w: Item)
    requires Once(processed, waiting)
    ensures w !in processed ==> Once(processed, waiting + {w})
    ensures w in waiting ==> Once(processed + [w], waiting - {w}) && w !in processed
  {
  }

  /** The active list after events of these waits: each wait goes to the end at its first event. */
  ghost function Arrive(active: seq<Item>, detached: set<Item>, events: seq<Item>): seq<Item>
    decreases events
  {
    if events == [] then active
    else
      var w := events[0];
      Arrive(if w in detached then active else Without(active, w) + [w], detached + {w}, events[1..])
  }

  /** What is left of the pending items after them. */
  ghost function Left(pending: seq<Item>, events: seq<Item>): seq<Item>
    decreases events
  {
    if events == [] then pending else Left(Without(pending, events[0]), events[1..])
  }

  /** Waits that have their first event are taken in the order of the events. */
  lemma {:induction false} ArriveInOrder(active: seq<Item>, detached: set<Item>, events: seq<Item>)
    requires forall k :: 0 <= k < |events| ==> events[k] !in active && events[k] !in detached
    requires forall j, k :: 0 <= j < k < |events| ==> events[j] != events[k]
    ensures Arrive(active, detached, events) == active + events
    decreases events
  {
    if events != [] {
      var w := events[0];
      WithoutNone(active, w);
      ArriveInOrder(active + [w], detached + {w}, events[1..]);
      assert (active + [w]) + events[1..] == active + events;
    }
  }

  lemma {:induction false} StillPending(pending: seq<Item>, events: seq<Item>, i: Item)
    requires i in pending && i !in events
    ensures i in Left(pending, events)
    decreases events
  {
    if events != [] {
      WithoutOther(pending, events[0], i);
      StillPending(Without(pending, events[0]), events[1..], i);
    }
  }

  lemma {:induction false} WithoutOther(s: seq<Item>, x: Item, i: Item)
    requires i in s && i != x
    ensures i in Without(s, x)
  {
    if s[0] != x && s[0] != i {
      WithoutOther(s[1..], x, i);
    }
  }

  lemma {:induction false} DeliveredAll(pending: seq<Item>, now: int, got: seq<Item>, i: Item)
    requires Delivers(pending, now, got) && i in pending && i.expire <= now
    ensures i in got
  {
    AtMembers(pending, i.expire);
    AtMembers(got, i.expire);
    assert At(got, i.expire) == At(pending, i.expire);
  }

  /** What a coroutine does before it gives way again, apart from its own business: the queue of a
      condition is named by its number, and times are those the clock shows. */
  datatype Act =
    | DoSignal(queue: nat)
    | DoBroadcast(queue: nat)
    | DoPoll(ms: int, clock: nat)
    | DoWait(queue: nat, ms: int, clock: nat)

  /** The queue exists, the clock is positive and the wheel's range test is right. */
  predicate ActOk(a: Act, queues: nat, start: nat, size: nat) {
    match a
    case DoSignal(q) => q < queues
    case DoBroadcast(q) => q < queues
    case DoPoll(ms, clock) =>
      0 < clock && 0 <= clock + ms && (start <= clock && 0 <= ms ==> InRange(clock + AtMost(ms) - start, size))
    case DoWait(q, ms, clock) =>
      q < queues && 0 < clock && (start <= clock && 0 < ms ==> InRange(clock + ms - start, size))
  }

  predicate ActsOk(acts: seq<Act>, queues: nat, start: nat, size: nat) {
    forall k :: 0 <= k < |acts| ==> ActOk(acts[k], queues, start, size)
  }

  predicate ScriptOk(script: seq<seq<Act>>, queues: nat, start: nat, size: nat) {
    forall k :: 0 <= k < |script| ==> ActsOk(script[k], queues, start, size)
  }

  predicate Wakes(a: Act) {
    a.DoSignal? || a.DoBroadcast?
  }

  /** Nobody is woken. */
  predicate Silent(script: seq<seq<Act>>) {
    forall k, j :: 0 <= k < |script| && 0 <= j < |script[k]| ==> !Wakes(script[k][j])
  }

  /** What the `n`-th coroutine resumed does. */
  function ScriptAt(script: seq<seq<Act>>, n: nat): seq<Act> {
    if n < |script| then script[n] else []
  }

  lemma {:induction false} ScriptFacts(script: seq<seq<Act>>, n: nat, queues: nat, start: nat, size: nat)
    requires ScriptOk(script, queues, start, size)
    ensures ActsOk(ScriptAt(script, n), queues, start, size)
    ensures n >= |script| ==> ScriptAt(script, n) == []
    ensures Silent(script) ==> forall k :: 0 <= k < |ScriptAt(script, n)| ==> !Wakes(ScriptAt(script, n)[k])
  {
  }

  class Loop {
    const world: World
    const wheel: Wheel
    const timeout: List
    const active: List
    var detached: set<Item>
    var timedOut: set<Item>
    var raised: map<Item, nat>
    var timerOf: map<Item, Item>
    var entryOf: map<Item, Item>
    ghost var conds: set<List>
    ghost var waiting: set<Item>
    ghost var processed: seq<Item>

    constructor (world: World, wheel: Wheel, timeout: List, active: List)
      requires wheel.world == world && wheel.Valid() && timeout != active
      requires timeout in world.lists && timeout !in wheel.slots && timeout.seqn == []
      requires active in world.lists && active !in wheel.slots && active.seqn == []
      requires forall i :: i in world.items ==> i.link == null
      ensures Valid() && waiting == {} && processed == []
    {
      this.world, this.wheel, this.timeout, this.active := world, wheel, timeout, active;
      detached, timedOut, raised, timerOf, entryOf := {}, {}, map[], map[], map[];
      conds, waiting, processed := {}, {}, [];
    }

    ghost predicate Shape()
      reads this`conds, world
    {
      && wheel.world == world && timeout != active
      && timeout in world.lists && timeout !in wheel.slots && timeout !in conds
      && active in world.lists && active !in wheel.slots && active !in conds
      && (forall l :: l in conds ==> l in world.lists && l !in wheel.slots)
    }

    /** What is in a list: waiting timers, and in the queue of a condition entries of waiting timers. */
    ghost predicate Tracked()
      reads this`conds, this`waiting, this`timerOf, world, world.items
    {
      && waiting <= world.items
      && (forall i :: i in world.items && i.link != null && i.link !in conds ==> i in waiting)
      && (forall i :: i in world.items && i.link != null && i.link in conds ==>
            i in timerOf && timerOf[i] in waiting)
    }

    /** Entries are apart from timers and only ever in the queue of a condition. */
    ghost predicate Paired()
      requires waiting <= world.items
      reads this`conds, this`waiting, this`timerOf, this`entryOf, world, world.items
    {
      && Inverse(timerOf, entryOf)
      && (forall e :: e in timerOf ==> e in world.items && e !in waiting && (e.link == null || e.link in conds))
      && (forall w :: w in entryOf ==> w in world.items)
      && (forall w :: w in waiting ==> w.link == null || w.link !in conds)
    }

    /** Nobody but `out` is forgotten: a waiting item is in a list or its entry is. One whose event has
        fired is due. */
    ghost predicate ReachableBut(out: set<Item>)
      reads this`conds, this`waiting, this`timerOf, this`entryOf, this`detached, world, world.items
      requires waiting <= world.items && Paired()
    {
      && (forall w :: w in waiting && w !in out ==> w.link != null || (w in entryOf && entryOf[w].link != null))
      && (forall w :: w in waiting && w !in out && w in detached ==> w.link == active)
    }

    /** The bookkeeping, apart from where the timeout list stands. */
    ghost predicate Sound()
      reads this, wheel, world, world.lists, world.items
    {
      Shape() && wheel.Valid() && Tracked() && Paired() && ReachableBut({}) && Once(processed, waiting)
    }

    /** Between the phases of a turn the timeout list is empty. */
    ghost predicate Valid()
      reads this, wheel, world, world.lists, world.items
    {
      Sound() && timeout.seqn == []
    }

    lemma {:induction false} TimerPlace(w: Item)
      requires Valid() && w in waiting
      ensures w in world.items && w.link != timeout && (w.link != null ==> w.link !in conds)
    {
      if w.link != null { world.InItsList(w); }
    }

    /** Out of whatever list it is in and to the end of the active list. */
    method MoveToActive(w: Item)
      requires Shape() && wheel.Valid() && timeout.seqn == []
      requires w in world.items && w.link != timeout && (w.link != null ==> w.link !in conds)
      modifies wheel`order, world.lists, world.items
      ensures Shape() && wheel.Valid() && timeout.seqn == []
      ensures w.link == active && forall i :: i in world.items && i != w ==> i.link == old(i.link)
      ensures world.lists == old(world.lists) && world.items == old(world.items)
      ensures active.seqn == (if old(w.link) == active then Without(old(active.seqn), w) else old(active.seqn)) + [w]
      ensures wheel.order == Without(old(wheel.order), w) && forall l :: l in conds ==> l.seqn == old(l.seqn)
    {
      hide World.Valid, Filed, Within, Without;
      wheel.Unlink(w);
      world.AddTail(active, w);
    }

    /** The same for a waiting item, which is then reachable again. */
    method MakeActive(w: Item)
      requires Shape() && wheel.Valid() && timeout.seqn == [] && Tracked() && Paired() && ReachableBut({w})
      requires w in waiting && w.link != timeout
      modifies wheel`order, world.lists, world.items
      ensures Shape() && wheel.Valid() && timeout.seqn == [] && Tracked() && Paired() && ReachableBut({})
      ensures w.link == active && forall i :: i in world.items && i != w ==> i.link == old(i.link)
      ensures world.lists == old(world.lists) && world.items == old(world.items)
      ensures active.seqn == (if old(w.link) == active then Without(old(active.seqn), w) else old(active.seqn)) + [w]
      ensures wheel.order == Without(old(wheel.order), w) && forall l :: l in conds ==> l.seqn == old(l.seqn)
    {
      hide Without, Wheel.Valid, Shape;
      ActiveIs();
      MoveToActive(w);
    }

    lemma {:induction false} ActiveIs()
      requires Shape()
      ensures active !in conds
    {
    }

    /** What is in the active list says so. */
    lemma {:induction false} ActiveMembers()
      requires Valid()
      ensures forall i :: i in active.seqn <==> i in world.items && i.link == active
    {
      assert active.Owns();
    }

    lemma {:induction false} NotActive(w: Item)
      requires Valid() && w.link != active
      ensures Without(active.seqn, w) == active.seqn
    {
      ActiveMembers();
      WithoutNone(active.seqn, w);
    }

    lemma {:induction false} ActiveNotPending(w: Item)
      requires Valid() && w.link == active
      ensures Without(wheel.order, w) == wheel.order
    {
      wheel.NotPending(w);
    }

    method Raise(w: Item)
      requires Valid()
      modifies this`raised
      ensures Valid() && raised == old(raised)[w := (if w in old(raised) then old(raised)[w] else 0) + 1]
    {
      hide Wheel.Valid, Once, Shape, Tracked, Paired, ReachableBut;
      raised := raised[w := (if w in raised then raised[w] else 0) + 1];
    }

    /** `OnPollPreparePfn`: an event of one of the wait's descriptors, which are registered as long as
        it waits. Only the first one moves it. */
    method OnEvent(w: Item)
      requires Valid() && w in waiting
      modifies this`raised, this`detached, wheel`order, world.lists, world.items
      ensures Valid() && w in detached && w.link == active
      ensures world.lists == old(world.lists) && world.items == old(world.items)
      ensures raised == old(raised)[w := (if w in old(raised) then old(raised)[w] else 0) + 1]
      ensures detached == old(detached) + {w} && wheel.order == Without(old(wheel.order), w)
      ensures active.seqn == if old(w in detached) then old(active.seqn) else Without(old(active.seqn), w) + [w]
      ensures w in active.seqn && forall i :: i in old(active.seqn) ==> i in active.seqn
    {
      hide Valid, Without;
      ActiveMembers();
      Raise(w);
      if w !in detached {
        Detach(w);
        ActiveMembers();
      } else {
        DetachedActive(w);
        ActiveNotPending(w);
      }
    }

    lemma {:induction false} DetachedActive(w: Item)
      requires Valid() && w in waiting && w in detached
      ensures w.link == active && w in world.items
    {
    }

    method Detach(w: Item)
      requires Valid() && w in waiting
      modifies this`detached, wheel`order, world.lists, world.items
      ensures Valid() && w.link == active && detached == old(detached) + {w}
      ensures world.lists == old(world.lists) && world.items == old(world.items)
      ensures active.seqn == Without(old(active.seqn), w) + [w] && wheel.order == Without(old(wheel.order), w)
      ensures forall i :: i in world.items && i != w ==> i.link == old(i.link)
    {
      hide Without, Wheel.Valid, Once, Shape, Tracked, Paired;
      TimerPlace(w);
      if w.link != active { NotActive(w); }
      detached := detached + {w};
      MakeActive(w);
    }

    lemma {:induction false} EntryPlace(cond: List)
      requires Valid() && cond in conds && cond.seqn != []
      ensures cond.head == cond.seqn[0] && cond.seqn[0] in world.items && cond.seqn[0].link == cond
      ensures cond.seqn[0] in timerOf && timerOf[cond.seqn[0]] in waiting && cond.seqn[0] !in waiting
    {
      assert cond.Linked() && cond.Owns();
    }

    /** The first entry leaves the queue and its timer becomes active. */
    method SignalFirst(cond: List)
      requires Valid() && cond in conds && cond.seqn != []
      modifies wheel`order, world.lists, world.items
      ensures Valid() && cond.seqn == old(cond.seqn[1..])
      ensures Woken(old(cond.seqn[0])) && world.lists == old(world.lists) && world.items == old(world.items)
      ensures forall i :: i in world.items && old(i.link) == active ==> i.link == active
      ensures forall l :: l in conds && l != cond ==> l.seqn == old(l.seqn)
    {
      hide Without, Wheel.Valid, Once;
      EntryPlace(cond);
      var sp := cond.head;
      TimerPlace(timerOf[sp]);
      PopEntry(cond);
      MakeActive(timerOf[sp]);
    }

    method PopEntry(cond: List)
      requires Shape() && wheel.Valid() && cond in conds && cond.seqn != []
      modifies world.lists, world.items
      ensures Shape() && wheel.Valid() && cond.seqn == old(cond.seqn[1..])
      ensures forall l :: l in world.lists && l != cond ==> l.seqn == old(l.seqn)
      ensures forall i :: i in world.items ==> i.link == if i == old(cond.seqn[0]) then null else old(i.link)
    {
      hide World.Valid, Filed, Within;
      world.PopHead(cond);
    }

    /** `co_cond_signal`: the longest waiting entry of the condition, if any, becomes active. */
    method Signal(cond: List)
      requires Valid() && cond in conds
      modifies wheel`order, world.lists, world.items
      ensures Valid() && cond.seqn == if old(cond.seqn) == [] then [] else old(cond.seqn[1..])
      ensures old(cond.seqn) != [] ==> Woken(old(cond.seqn[0]))
      ensures forall l :: l in conds && l != cond ==> l.seqn == old(l.seqn)
      ensures world.lists == old(world.lists) && world.items == old(world.items)
      ensures forall i :: i in old(active.seqn) ==> i in active.seqn
    {
      hide Valid;
      ActiveMembers();
      CondHead(cond);
      if cond.head != null {
        EntryPlace(cond);
        SignalFirst(cond);
        ActiveMembers();
      }
    }

    lemma {:induction false} CondHead(cond: List)
      requires Valid() && cond in conds
      ensures cond.head == null <==> cond.seqn == []
    {
      assert cond.Linked();
    }

    /** The wait of an entry is active. */
    ghost predicate Woken(e: Item)
      reads this`timerOf, world, world.items
    {
      e in timerOf && timerOf[e] in world.items && timerOf[e].link == active
    }

    /** `co_cond_broadcast`: every entry's timer becomes active. */
    method Broadcast(cond: List)
      requires Valid() && cond in conds
      modifies wheel`order, world.lists, world.items
      ensures Valid() && cond.seqn == []
      ensures forall k :: 0 <= k < old(|cond.seqn|) ==> Woken(old(cond.seqn)[k])
      ensures forall l :: l in conds && l != cond ==> l.seqn == old(l.seqn)
      ensures world.lists == old(world.lists) && world.items == old(world.items)
      ensures forall i :: i in old(active.seqn) ==> i in active.seqn
    {
      hide Valid;
      ActiveMembers();
      CondHead(cond);
      ghost var n := 0;
      while cond.head != null
        invariant Valid() && (cond.head == null <==> cond.seqn == [])
        invariant n <= old(|cond.seqn|) && cond.seqn == old(cond.seqn)[n..]
        invariant forall k :: 0 <= k < n ==> Woken(old(cond.seqn)[k])
        invariant world.lists == old(world.lists) && world.items == old(world.items)
        invariant forall i :: i in world.items && old(i.link) == active ==> i.link == active
        invariant forall l :: l in conds && l != cond ==> l.seqn == old(l.seqn)
        decreases |cond.seqn|
      {
        SignalFirst(cond);
        CondHead(cond);
        n := n + 1;
      }
      ActiveMembers();
    }

    /** The loop that marks the items of the timeout list. */
    method Flag()
      requires timeout.Linked()
      modifies this`timedOut
      ensures timedOut == old(timedOut) + set i | i in timeout.seqn
    {
      var lp := timeout.head;
      ghost var n := 0;
      while lp != null
        invariant n <= |timeout.seqn| && lp == if n < |timeout.seqn| then timeout.seqn[n] else null
        invariant timedOut == old(timedOut) + set i | i in timeout.seqn[..n]
        decreases |timeout.seqn| - n
      {
        assert lp.next == After(timeout.seqn, n);
        timedOut := timedOut + {lp};
        assert timeout.seqn[..n + 1] == timeout.seqn[..n] + [lp];
        lp := lp.next;
        n := n + 1;
      }
      assert timeout.seqn[..n] == timeout.seqn;
    }

    method TakeExpired(now: nat)
      requires Valid() && (wheel.Reads(now) || wheel.Due(now) < 0)
      modifies wheel, world.lists, world.items
      ensures Sound() && active.seqn == old(active.seqn) && timeout.Linked()
      ensures world.lists == old(world.lists) && world.items == old(world.items)
      ensures wheel.start == old(if wheel.Due(now) < 0 then wheel.Base(now) else now)
      ensures old(wheel.Reads(now)) ==>
        wheel.order == Later(old(wheel.order), now) && Delivers(old(wheel.order), now, timeout.seqn)
      ensures old(!wheel.Reads(now)) ==> wheel.order == old(wheel.order) && timeout.seqn == []
    {
      hide Later, Delivers, World.Closed, World.PointBack, Filed, Within, Once, InRange, Counted;
      wheel.TakeAllTimeout(now, timeout);
      assert timeout.seqn[0..] == timeout.seqn;
    }

    method JoinTimeouts()
      requires Sound()
      modifies world.lists, world.items
      ensures Valid() && active.seqn == old(active.seqn) + old(timeout.seqn)
      ensures world.lists == old(world.lists) && world.items == old(world.items)
    {
      hide World.Valid, Filed, Within, Once;
      world.Join(active, timeout);
    }

    /** The expired part of the wheel is marked and goes to the end of the active list. If the count of
        milliseconds is read as negative, nothing happens. */
    method Expire(now: nat) returns (ghost expired: seq<Item>)
      requires Valid() && (wheel.Reads(now) || wheel.Due(now) < 0)
      modifies this`timedOut, wheel, world.lists, world.items
      ensures Valid() && active.seqn == old(active.seqn) + expired
      ensures world.lists == old(world.lists) && world.items == old(world.items)
      ensures timedOut == old(timedOut) + set i | i in expired
      ensures wheel.start == old(if wheel.Due(now) < 0 then wheel.Base(now) else now)
      ensures old(wheel.Reads(now)) ==>
        wheel.order == Later(old(wheel.order), now) && Delivers(old(wheel.order), now, expired)
      ensures old(!wheel.Reads(now)) ==> wheel.order == old(wheel.order) && expired == []
    {
      hide Later, Delivers, Wheel.Valid, Tracked, Paired, ReachableBut, Once, Wheel.Reads, Wheel.Due;
      TakeExpired(now);
      Flag();
      expired := timeout.seqn;
      JoinTimeouts();
    }

    /** No item is in two lists. */
    lemma {:induction false} InOneList(l: List, m: List, i: Item)
      requires Valid() && l in world.lists && m in world.lists && i in l.seqn && i in m.seqn
      ensures l == m
    {
      assert l.Owns() && m.Owns();
    }

    lemma {:induction false} ActivePlace()
      requires Valid()
      ensures active.head == if active.seqn == [] then null else active.seqn[0]
      ensures active.seqn != [] ==>
        active.seqn[0] in waiting && active.seqn[0] in world.items && active.seqn[0].link == active
    {
      assert active.Linked() && active.Owns();
    }

    method PopActive()
      requires Shape() && wheel.Valid() && active.seqn != []
      modifies world.lists, world.items
      ensures Shape() && wheel.Valid() && active.seqn == old(active.seqn[1..])
      ensures forall l :: l in world.lists && l != active ==> l.seqn == old(l.seqn)
      ensures forall i :: i in world.items ==> i.link == if i == old(active.seqn[0]) then null else old(i.link)
    {
      hide World.Valid, Filed, Within;
      world.PopHead(active);
    }

    /** The resumed coroutine takes the wait, or its entry, out of any list it is still in. */
    method CleanUp(w: Item)
      requires Shape() && wheel.Valid() && Tracked() && Paired() && ReachableBut({w}) && Once(processed, waiting)
      requires timeout.seqn == [] && w in waiting && w.link == null
      modifies this`waiting, this`processed, wheel`order, world.lists, world.items
      ensures Valid() && waiting == old(waiting) - {w} && processed == old(processed) + [w]
      ensures w.link == null && active.seqn == old(active.seqn)
    {
      hide Wheel.Valid, Without, Once, Inverse;
      OnceMore(processed, waiting, w);
      InverseEntries(timerOf, entryOf);
      wheel.Unlink(if w in entryOf then entryOf[w] else w);
      waiting, processed := waiting - {w}, processed + [w];
    }

    /** One turn of the loop over the active list: its head is processed, for the first and last time. */
    method ProcessHead() returns (w: Item?)
      requires Valid()
      modifies this`waiting, this`processed, wheel`order, world.lists, world.items
      ensures Valid() && (w == null <==> old(active.seqn) == [])
      ensures w == null ==> waiting == old(waiting) && processed == old(processed)
      ensures w != null ==>
        && w == old(active.seqn[0]) && w in old(waiting) && w !in old(processed) && w.link == null
        && waiting == old(waiting) - {w} && processed == old(processed) + [w]
        && active.seqn == old(active.seqn[1..])
    {
      w := active.head;
      ActivePlace();
      if w != null {
        OnceMore(processed, waiting, w);
        PopActive();
        CleanUp(w);
      }
    }

    /** A new item that nobody waits on yet. */
    method NewItem(expire: nat) returns (i: Item)
      requires Valid()
      modifies world`items
      ensures Valid() && fresh(i) && i.expire == expire && i.link == null
      ensures i !in waiting && i !in timerOf && i !in entryOf && i !in processed && i !in detached
      ensures world.items == old(world.items) + {i} && world.lists == old(world.lists)
    {
      hide Once, Inverse;
      i := world.NewItem(expire);
    }

    /** Puts a new wait into the wheel, unless the wheel refuses it. */
    method Arm(w: Item, now: nat) returns (ok: bool)
      requires Valid() && w in world.items && w.link == null && 0 < now && wheel.Tells(w.expire, now)
      requires w !in waiting && w !in timerOf && w !in processed && w !in detached
      modifies this`waiting, wheel, world.lists, world.items
      ensures Valid() && world.lists == old(world.lists) && world.items == old(world.items)
      ensures ok <==> wheel.start <= now <= w.expire < wheel.start + wheel.size
      ensures ok ==> waiting == old(waiting) + {w} && w.link in wheel.slots
      ensures !ok ==> waiting == old(waiting) && w.link == null
      ensures wheel.start == old(wheel.Base(now)) && active.seqn == old(active.seqn)
      ensures forall i :: i in world.items && i != w ==> i.link == old(i.link)
      ensures forall l :: l in conds ==> l.seqn == old(l.seqn)
    {
      hide Wheel.Valid, Once, Inverse, Wheel.Tells;
      OnceMore(processed, waiting, w);
      ok := wheel.AddTimeout(w, now);
      if ok {
        waiting := waiting + {w};
      }
    }

    /** Registration in `co_poll_inner`: refused by the wheel, or waiting in it. */
    method Poll(timeoutMs: int, now: nat) returns (w: Item?)
      requires Valid() && 0 < now && 0 <= now + timeoutMs && wheel.Tells(now + AtMost(timeoutMs), now)
      modifies this`waiting, wheel, world`items, world.lists, world.items
      ensures Valid() && processed == old(processed) && world.lists == old(world.lists)
      ensures wheel.start == old(wheel.Base(now)) && active.seqn == old(active.seqn)
      ensures old(world.items) <= world.items && fresh(world.items - old(world.items))
      ensures w == null ==> waiting == old(waiting)
      ensures w != null ==> fresh(w) && waiting == old(waiting) + {w} && w.link in wheel.slots
      ensures w != null <==>
        && wheel.start <= now && 0 <= timeoutMs
        && now + AtMost(timeoutMs) < wheel.start + wheel.size
    {
      hide Valid, InRange;
      w := NewItem(now + AtMost(timeoutMs));
      var ok := Arm(w, now);
      if !ok {
        w := null;
      }
    }

    method NewQueue() returns (l: List)
      requires Shape() && wheel.Valid()
      modifies world`lists
      ensures Shape() && wheel.Valid() && fresh(l) && l.seqn == [] && world.lists == old(world.lists) + {l}
    {
      hide World.Valid, Filed, Within;
      l := world.NewList();
    }

    /** A new condition with an empty queue. */
    method NewCond() returns (cond: List)
      requires Valid()
      modifies this`conds, world`lists
      ensures Valid() && fresh(cond) && cond.seqn == [] && conds == old(conds) + {cond}
    {
      hide Wheel.Valid, Once, Inverse;
      cond := NewQueue();
      assert forall i :: i in world.items ==> i.link != cond;
      conds := conds + {cond};
    }

    method QueueEntry(cond: List, e: Item)
      requires Shape() && wheel.Valid() && cond in conds && e in world.items && e.link == null
      modifies world.lists, world.items
      ensures Shape() && wheel.Valid() && cond.seqn == old(cond.seqn) + [e]
      ensures forall l :: l in world.lists && l != cond ==> l.seqn == old(l.seqn)
      ensures e.link == cond && forall i :: i in world.items && i != e ==> i.link == old(i.link)
    {
      hide World.Valid, Filed, Within;
      world.AddTail(cond, e);
    }

    lemma {:induction false} CondPlace(cond: List)
      requires Shape() && cond in conds
      ensures cond in world.lists && cond != timeout && cond != active
    {
    }

    /** A wait made of an entry and a timer. */
    method Pair(e: Item, t: Item)
      requires Valid() && e != t
      requires e in world.items && e.link == null && e !in waiting && e !in timerOf && e !in entryOf
      requires t in world.items && t !in timerOf && t !in entryOf && t !in processed && t !in detached
      requires t in waiting || t.link == null
      modifies this`waiting, this`timerOf, this`entryOf
      ensures Shape() && wheel.Valid() && Tracked() && Paired() && ReachableBut({t}) && Once(processed, waiting)
      ensures waiting == old(waiting) + {t}
      ensures timerOf == old(timerOf)[e := t] && entryOf == old(entryOf)[t := e]
    {
      hide Wheel.Valid, Shape, Inverse, Once;
      OnceMore(processed, waiting, t);
      InverseWith(timerOf, entryOf, e, t);
      timerOf, entryOf, waiting := timerOf[e := t], entryOf[t := e], waiting + {t};
    }

    /** The entry goes to the end of the queue. */
    method Enqueue(cond: List, e: Item, t: Item)
      requires Shape() && wheel.Valid() && Tracked() && Paired() && ReachableBut({t}) && Once(processed, waiting)
      requires timeout.seqn == [] && cond in conds && e in timerOf && e.link == null
      requires timerOf[e] == t && t in waiting && t !in detached
      modifies world.lists, world.items
      ensures Valid() && cond.seqn == old(cond.seqn) + [e] && t.link == old(t.link) && active.seqn == old(active.seqn)
      ensures forall l :: l in conds && l != cond ==> l.seqn == old(l.seqn)
      ensures world.lists == old(world.lists) && world.items == old(world.items)
    {
      hide Wheel.Valid, Shape, Inverse, Once;
      InverseEntries(timerOf, entryOf);
      CondPlace(cond);
      QueueEntry(cond, e);
    }

    /** Registration in `co_cond_timedwait`; without a positive time only a signal can wake it. */
    method CondWait(cond: List, ms: int, now: nat) returns (w: Item?)
      requires Valid() && cond in conds && 0 < now && (ms > 0 ==> wheel.Tells(now + ms, now))
      modifies this`waiting, this`timerOf, this`entryOf, wheel, world`items, world.lists, world.items
      ensures Valid() && processed == old(processed) && world.lists == old(world.lists)
      ensures wheel.start == (if ms > 0 then old(wheel.Base(now)) else old(wheel.start)) && active.seqn == old(active.seqn)
      ensures old(world.items) <= world.items && fresh(world.items - old(world.items))
      ensures w == null ==> waiting == old(waiting) && cond.seqn == old(cond.seqn)
      ensures w != null ==>
        && fresh(w) && waiting == old(waiting) + {w} && w in entryOf
        && cond.seqn == old(cond.seqn) + [entryOf[w]] && (w.link != null <==> ms > 0)
      ensures w != null <==> ms <= 0 || (wheel.start <= now && now + ms < wheel.start + wheel.size)
    {
      hide Sound, Shape, Tracked, Paired, ReachableBut, Once, Wheel.Valid, InRange;
      var e := NewItem(0);
      var t := NewItem(if ms > 0 then now + ms else 0);
      if ms > 0 {
        var ok := Arm(t, now);
        if !ok {
          return null;
        }
      }
      Pair(e, t);
      Enqueue(cond, e, t);
      return t;
    }

    // -------------------------------------------------------------- a whole turn

    /** The events of a turn. */
    method Prepare(events: seq<Item>)
      requires Valid() && forall k :: 0 <= k < |events| ==> events[k] in waiting
      modifies this`raised, this`detached, wheel`order, world.lists, world.items
      ensures Valid() && world.lists == old(world.lists) && world.items == old(world.items)
      ensures active.seqn == Arrive(old(active.seqn), old(detached), events)
      ensures wheel.order == Left(old(wheel.order), events)
      ensures forall i :: i in old(active.seqn) || i in events ==> i in active.seqn
    {
      hide Valid, Without;
      for k := 0 to |events|
        invariant Valid() && world.lists == old(world.lists) && world.items == old(world.items)
        invariant Arrive(active.seqn, detached, events[k..]) == Arrive(old(active.seqn), old(detached), events)
        invariant Left(wheel.order, events[k..]) == Left(old(wheel.order), events)
        invariant forall i :: i in old(active.seqn) || i in events[..k] ==> i in active.seqn
      {
        assert events[k..][0] == events[k] && events[k..][1..] == events[k + 1..];
        assert events[..k + 1] == events[..k] + [events[k]];
        OnEvent(events[k]);
      }
      assert events[..|events|] == events;
    }

    method Do(a: Act, queues: seq<List>)
      requires Valid() && wheel.start > 0 && ActOk(a, |queues|, wheel.start, wheel.size)
      requires forall k :: 0 <= k < |queues| ==> queues[k] in conds
      modifies this`waiting, this`timerOf, this`entryOf, wheel, world`items, world.lists, world.items
      ensures Valid() && processed == old(processed) && wheel.start == old(wheel.start)
      ensures world.lists == old(world.lists)
      ensures old(world.items) <= world.items && fresh(world.items - old(world.items))
      ensures forall i :: i in old(active.seqn) ==> i in active.seqn
      ensures !Wakes(a) ==> active.seqn == old(active.seqn)
    {
      hide Valid, InRange;
      match a
      case DoSignal(q) => Signal(queues[q]);
      case DoBroadcast(q) => Broadcast(queues[q]);
      case DoPoll(ms, clock) => var w := Poll(ms, clock);
      case DoWait(q, ms, clock) => var w := CondWait(queues[q], ms, clock);
    }

    /** What one coroutine does after it was resumed. */
    method DoAll(acts: seq<Act>, queues: seq<List>)
      requires Valid() && wheel.start > 0 && ActsOk(acts, |queues|, wheel.start, wheel.size)
      requires forall k :: 0 <= k < |queues| ==> queues[k] in conds
      modifies this`waiting, this`timerOf, this`entryOf, wheel, world`items, world.lists, world.items
      ensures Valid() && processed == old(processed) && wheel.start == old(wheel.start)
      ensures world.lists == old(world.lists)
      ensures old(world.items) <= world.items && fresh(world.items - old(world.items))
      ensures forall i :: i in old(active.seqn) ==> i in active.seqn
      ensures (forall k :: 0 <= k < |acts| ==> !Wakes(acts[k])) ==> active.seqn == old(active.seqn)
    {
      hide Valid, ActOk;
      for k := 0 to |acts|
        invariant Valid() && processed == old(processed) && wheel.start == old(wheel.start)
        invariant world.lists == old(world.lists)
        invariant old(world.items) <= world.items && fresh(world.items - old(world.items))
        invariant forall i :: i in old(active.seqn) ==> i in active.seqn
        invariant (forall j :: 0 <= j < k ==> !Wakes(acts[j])) ==> active.seqn == old(active.seqn)
      {
        Do(acts[k], queues);
      }
    }

    /** The head of the active list is processed and its coroutine acts. */
    method ProcessOne(queues: seq<List>, acts: seq<Act>)
      requires Valid() && active.seqn != [] && wheel.start > 0 && ActsOk(acts, |queues|, wheel.start, wheel.size)
      requires forall k :: 0 <= k < |queues| ==> queues[k] in conds
      modifies this`waiting, this`processed, this`timerOf, this`entryOf, wheel, world`items, world.lists, world.items
      ensures Valid() && processed == old(processed) + [old(active.seqn[0])] && wheel.start == old(wheel.start)
      ensures world.lists == old(world.lists)
      ensures old(world.items) <= world.items && fresh(world.items - old(world.items))
      ensures forall i :: i in old(active.seqn[1..]) ==> i in active.seqn
      ensures (forall k :: 0 <= k < |acts| ==> !Wakes(acts[k])) ==> active.seqn == old(active.seqn[1..])
      ensures acts == [] ==> waiting < old(waiting)
      ensures active.head == if active.seqn == [] then null else active.seqn[0]
    {
      hide Valid, ActsOk;
      var w := ProcessHead();
      if acts != [] {
        DoAll(acts, queues);
      }
      ActivePlace();
    }

    /** The loop over the active list. The coroutines resumed do what `script` says, in turn, and nothing
        once it has ended. */
    method Process(queues: seq<List>, script: seq<seq<Act>>)
      requires Valid() && wheel.start > 0 && ScriptOk(script, |queues|, wheel.start, wheel.size)
      requires forall k :: 0 <= k < |queues| ==> queues[k] in conds
      modifies this`waiting, this`processed, this`timerOf, this`entryOf, wheel, world`items, world.lists, world.items
      ensures Valid() && active.seqn == [] && old(processed) <= processed
      ensures forall i :: i in old(active.seqn) ==> i in processed[|old(processed)|..]
      ensures Silent(script) ==> processed == old(processed) + old(active.seqn)
    {
      hide Valid, ScriptOk, ActsOk, Silent, ScriptAt, Wakes;
      var n := 0;
      ghost var done: seq<Item> := [];
      ActivePlace();
      while active.head != null
        invariant Valid() && wheel.start == old(wheel.start) && world.lists == old(world.lists)
        invariant old(world.items) <= world.items && fresh(world.items - old(world.items))
        invariant active.head == if active.seqn == [] then null else active.seqn[0]
        invariant processed == old(processed) + done
        invariant forall i :: i in old(active.seqn) ==> i in done || i in active.seqn
        invariant Silent(script) ==> done + active.seqn == old(active.seqn)
        decreases if n < |script| then |script| - n else 0, waiting
      {
        ghost var due := active.seqn;
        ScriptFacts(script, n, |queues|, wheel.start, wheel.size);
        ProcessOne(queues, ScriptAt(script, n));
        assert due == [due[0]] + due[1..];
        done := done + [due[0]];
        n := n + 1;
      }
      assert processed[|old(processed)|..] == done;
    }

    /** One turn of `co_eventloop`: the events, the timeouts, and every active wait until none is left. Every
        wait with an event and every wait that expired is processed in it, and by `Once` no other time; if
        nobody is woken meanwhile, the waits are processed in the order in which they became active, those
        with an event before those that expired. */
    method Turn(events: seq<Item>, now: nat, queues: seq<List>, script: seq<seq<Act>>) returns (ghost expired: seq<Item>)
      requires Valid() && 0 < now && (wheel.Reads(now) || wheel.Due(now) < 0)
      requires forall k :: 0 <= k < |events| ==> events[k] in waiting
      requires forall k :: 0 <= k < |queues| ==> queues[k] in conds
      requires ScriptOk(script, |queues|, if wheel.Due(now) < 0 then wheel.Base(now) else now, wheel.size)
      modifies this, wheel, world, world.lists, world.items
      ensures Valid() && active.seqn == [] && old(processed) <= processed && Once(processed, waiting)
      ensures forall i :: i in old(active.seqn) || i in events ==> i in processed[|old(processed)|..]
      ensures old(wheel.Reads(now)) ==>
        && Delivers(Left(old(wheel.order), events), now, expired)
        && forall i :: i in old(wheel.order) && i.expire <= now ==> i in processed[|old(processed)|..]
      ensures Silent(script) ==>
        processed == old(processed) + Arrive(old(active.seqn), old(detached), events) + expired
    {
      hide Valid, Delivers, Later, InRange, Counted, Silent, ScriptOk, Arrive, Left;
      Prepare(events);
      expired := Expire(now);
      ghost var due := active.seqn;
      Process(queues, script);
      assert Once(processed, waiting) by { OnlyOnce(); }
      if old(wheel.Reads(now)) {
        forall i | i in old(wheel.order) && i.expire <= now ensures i in due {
          if i !in events {
            StillPending(old(wheel.order), events, i);
            DeliveredAll(Left(old(wheel.order), events), now, expired, i);
          }
        }
      }
    }

    lemma {:induction false} OnlyOnce()
      requires Valid()
      ensures Once(processed, waiting)
    {
    }
  }
}
