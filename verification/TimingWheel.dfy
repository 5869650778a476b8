/** libco's millisecond timing wheel: one intrusive list per millisecond, used as a ring.

    The reference is `order`, the pending items in the order they were added; a slot holds those of
    one expiry time. `unsigned long long` differences are stored in an `int`, which `Int32` models. */
module TimingWheel {
  import opened Modular
  import opened IntrusiveList

  const MAX_INT: nat := 0x7fff_ffff

  /** Conversion of a 64-bit difference to `int`. */
  function Int32(x: int): int {
    (x + 0x8000_0000) % 0x1_0000_0000 - 0x8000_0000
  }

  /** The range test on the converted difference tells what is within the wheel exactly for differences
      whose low 32 bits are a positive `int` no smaller than the wheel, or that fit an `int`. */
  lemma {:induction false} RangeTest(x: nat, size: nat)
    requires 0 < size <= MAX_INT
    ensures (Int32(x) >= size <==> x >= size) <==> InRange(x, size)
    ensures x <= MAX_INT ==> Int32(x) == x
  {
    var low := x % 0x1_0000_0000;
    assert Int32(x) == if low <= MAX_INT then low else low - 0x1_0000_0000;
  }

  /** Differences for which it is right. */
  predicate InRange(x: nat, size: nat) {
    x <= MAX_INT || size <= x % 0x1_0000_0000 <= MAX_INT
  }

  /** How many milliseconds `TakeAllTimeout` takes for a clock `x` past the start. */
  function Counted(x: nat, size: nat): int {
    if Int32(x + 1) > size then size else Int32(x + 1)
  }

  /** It takes what has passed, at most a whole wheel, exactly under the condition of `RangeTest` on `x + 1`;
      it does nothing at all exactly if the low 32 bits of that are a negative `int`. */
  lemma {:induction false} CountTest(x: nat, size: nat)
    requires 0 < size <= MAX_INT
    ensures Counted(x, size) == (if x + 1 > size then size else x + 1) <==> InRange(x + 1, size)
    ensures Counted(x, size) < 0 <==> (x + 1) % 0x1_0000_0000 > MAX_INT
    ensures Counted(x, size) <= x + 1
  {
    var low := (x + 1) % 0x1_0000_0000;
    assert Int32(x + 1) == if low <= MAX_INT then low else low - 0x1_0000_0000;
  }

  // ---------------------------------------------------------------- the reference

  /** The items of `s` that expire at `e`, in order. */
  function At(s: seq<Item>, e: nat): seq<Item> {
    if s == [] then [] else (if s[0].expire == e then [s[0]] else []) + At(s[1..], e)
  }

  /** The items of `s` that expire after `now`, in order. */
  function Later(s: seq<Item>, now: int): seq<Item> {
    if s == [] then [] else (if s[0].expire > now then [s[0]] else []) + Later(s[1..], now)
  }

  /** The items of `s` that expire in the `n` milliseconds from `from`, by time and in order within
      each millisecond. */
  function Collect(s: seq<Item>, from: nat, n: nat): seq<Item> {
    if n == 0 then [] else Collect(s, from, n - 1) + At(s, from + n - 1)
  }

  ghost predicate Sorted(s: seq<Item>) {
    forall j, k :: 0 <= j < k < |s| ==> s[j].expire <= s[k].expire
  }

  ghost predicate Within(s: seq<Item>, lo: nat, hi: nat) {
    forall k :: 0 <= k < |s| ==> lo <= s[k].expire < hi
  }

  lemma {:induction false} AtFirst(s: seq<Item>, e: nat)
    requires s != []
    ensures At(s, e) == (if s[0].expire == e then [s[0]] else []) + At(s[1..], e)
  {
  }

  lemma {:induction false} AtSplit(s: seq<Item>, t: seq<Item>, e: nat)
    ensures At(s + t, e) == At(s, e) + At(t, e)
  {
    if s == [] {
      assert s + t == t;
    } else {
      var first := if s[0].expire == e then [s[0]] else [];
      AtSplit(s[1..], t, e);
      AtFirst(s, e);
      AtFirst(s + t, e);
      hide At;
      assert (s + t)[1..] == s[1..] + t;
      assert first + (At(s[1..], e) + At(t, e)) == (first + At(s[1..], e)) + At(t, e);
    }
  }

  lemma {:induction false} AtMembers(s: seq<Item>, e: nat)
    ensures forall k :: 0 <= k < |At(s, e)| ==> At(s, e)[k] in s && At(s, e)[k].expire == e
    ensures forall k :: 0 <= k < |s| && s[k].expire == e ==> s[k] in At(s, e)
  {
    if s != [] {
      AtMembers(s[1..], e);
      assert s == [s[0]] + s[1..];
    }
  }

  lemma {:induction false} AtSame(s: seq<Item>, e: nat)
    requires forall k :: 0 <= k < |s| ==> s[k].expire == e
    ensures At(s, e) == s
    ensures forall f :: f != e ==> At(s, f) == []
  {
    if s != [] {
      AtSame(s[1..], e);
    }
  }

  lemma {:induction false} AtOne(i: Item, e: nat)
    ensures At([i], e) == if i.expire == e then [i] else []
  {
  }

  lemma {:induction false} AtNone(s: seq<Item>, lo: nat, hi: nat, e: nat)
    requires Within(s, lo, hi) && !(lo <= e < hi)
    ensures At(s, e) == []
  {
    if s != [] {
      AtNone(s[1..], lo, hi, e);
    }
  }

  lemma {:induction false} LaterMembers(s: seq<Item>, now: int)
    ensures forall k :: 0 <= k < |Later(s, now)| ==> Later(s, now)[k] in s && Later(s, now)[k].expire > now
    ensures forall k :: 0 <= k < |s| && s[k].expire > now ==> s[k] in Later(s, now)
  {
    if s != [] {
      LaterMembers(s[1..], now);
      assert s == [s[0]] + s[1..];
    }
  }

  lemma {:induction false} AtLater(s: seq<Item>, now: int, e: nat)
    ensures At(Later(s, now), e) == if e > now then At(s, e) else []
  {
    if s != [] {
      AtLater(s[1..], now, e);
      var first := if s[0].expire > now then [s[0]] else [];
      AtSplit(first, Later(s[1..], now), e);
    }
  }

  /** Collecting is a stable sort by expiry of the items in range. */
  lemma {:induction false} CollectIs(s: seq<Item>, from: nat, n: nat, e: nat)
    ensures At(Collect(s, from, n), e) == if from <= e < from + n then At(s, e) else []
  {
    hide At;
    if n == 0 {
      AtNone([], 0, 0, e);
    } else {
      CollectIs(s, from, n - 1, e);
      AtSplit(Collect(s, from, n - 1), At(s, from + n - 1), e);
      AtMembers(s, from + n - 1);
      AtSame(At(s, from + n - 1), from + n - 1);
    }
  }

  lemma {:induction false} CollectSorted(s: seq<Item>, from: nat, n: nat)
    ensures Sorted(Collect(s, from, n)) && Within(Collect(s, from, n), from, from + n)
  {
    if n > 0 {
      CollectSorted(s, from, n - 1);
      AtMembers(s, from + n - 1);
    }
  }

  /** `got` is what a timeout at `now` must deliver from `pending`: every item with expiry up to `now`
      and no other, by expiry, and first come first served within a millisecond. */
  ghost predicate Delivers(pending: seq<Item>, now: int, got: seq<Item>) {
    && Sorted(got)
    && forall e: nat :: At(got, e) == if e <= now then At(pending, e) else []
  }

  lemma {:induction false} NothingDue(s: seq<Item>, from: nat, now: nat)
    requires now < from && forall k :: 0 <= k < |s| ==> from <= s[k].expire
    ensures Later(s, now) == s && Delivers(s, now, [])
  {
    hide At, Later;
    AllLater(s, now);
    forall e: nat ensures At([], e) == if e <= now then At(s, e) else [] {
      AtLater(s, now, e);
      AtNone([], 0, 0, e);
    }
  }

  lemma {:induction false} AllLater(s: seq<Item>, now: int)
    requires forall k :: 0 <= k < |s| ==> now < s[k].expire
    ensures Later(s, now) == s
  {
    if s != [] {
      AllLater(s[1..], now);
      assert s == [s[0]] + s[1..];
    }
  }

  /** There is only one such sequence. */
  lemma {:induction false} DeliversUnique(pending: seq<Item>, now: int, s: seq<Item>, t: seq<Item>)
    requires Delivers(pending, now, s) && Delivers(pending, now, t)
    ensures s == t
  {
    SortedUnique(s, t);
  }

  lemma {:induction false} AtHead(s: seq<Item>)
    requires s != []
    ensures At(s, s[0].expire) == [s[0]] + At(s[1..], s[0].expire)
  {
  }

  lemma {:induction false} SortedUnique(s: seq<Item>, t: seq<Item>)
    requires Sorted(s) && Sorted(t) && forall e: nat :: At(s, e) == At(t, e)
    ensures s == t
  {
    if s == [] {
      if t != [] { AtHead(t); }
    } else {
      AtMembers(s, s[0].expire);
      AtMembers(t, s[0].expire);
      assert s[0] in At(t, s[0].expire);
      AtMembers(t, t[0].expire);
      AtMembers(s, t[0].expire);
      assert t[0] in At(s, t[0].expire);
      assert s[0].expire == t[0].expire;
      assert s[0] == At(s, s[0].expire)[0] == t[0];
      forall e: nat ensures At(s[1..], e) == At(t[1..], e) {
        assert At(s, e) == At(t, e);
        assert At(s[1..], e) == At(s, e)[|At(s, e)| - |At(s[1..], e)|..];
        assert At(t[1..], e) == At(t, e)[|At(t, e)| - |At(t[1..], e)|..];
      }
      SortedUnique(s[1..], t[1..]);
    }
  }

  /** Collecting the first `n` milliseconds delivers what is due exactly if nothing due lies behind them. */
  lemma {:induction false} CollectDelivers(s: seq<Item>, from: nat, n: nat, now: nat)
    requires from <= now && from + n <= now + 1
    requires forall k :: 0 <= k < |s| ==> from <= s[k].expire
    ensures Delivers(s, now, Collect(s, from, n)) <==> forall k :: 0 <= k < |s| ==> !(from + n <= s[k].expire <= now)
  {
    CollectSorted(s, from, n);
    if forall k :: 0 <= k < |s| ==> !(from + n <= s[k].expire <= now) {
      forall e: nat ensures At(Collect(s, from, n), e) == if e <= now then At(s, e) else [] {
        CollectIs(s, from, n, e);
        AtMembers(s, e);
        assert At(s, e) != [] ==> At(s, e)[0] in s;
      }
    } else {
      var k :| 0 <= k < |s| && from + n <= s[k].expire <= now;
      CollectIs(s, from, n, s[k].expire);
      AtMembers(s, s[k].expire);
    }
  }

  // ---------------------------------------------------------------- the wheel

  /** Each slot holds the pending items of its millisecond. */
  ghost predicate Filed(slots: seq<List>, from: nat, idx: nat, pending: seq<Item>)
    requires slots != []
    reads slots
  {
    forall d :: 0 <= d < |slots| ==> slots[SlotAt(idx, d, |slots|)].seqn == At(pending, from + d)
  }

  class Wheel {
    const world: World
    const size: nat
    const slots: seq<List>
    var start: nat
    var startIdx: int
    ghost var order: seq<Item>

    /** The slots are lists of their own and the capacity is a positive `int`. */
    ghost predicate Shape()
      reads this, world
    {
      && 0 < size <= MAX_INT && |slots| == size && 0 <= startIdx
      && (forall d :: 0 <= d < size ==> slots[d] in world.lists)
      && (forall c, d :: 0 <= c < d < size ==> slots[c] != slots[d])
    }

    ghost predicate Valid()
      reads this, world, world.lists, world.items
    {
      && world.Valid() && Shape()
      && Within(order, start, start + size) && (start == 0 ==> order == [])
      && Filed(slots, start, startIdx, order)
    }

    /** `AllocTimeout` over freshly made lists. */
    constructor (world: World, slots: seq<List>, now: nat)
      requires world.Valid() && 0 < |slots| <= MAX_INT
      requires forall d :: 0 <= d < |slots| ==> slots[d] in world.lists && slots[d].seqn == []
      requires forall c, d :: 0 <= c < d < |slots| ==> slots[c] != slots[d]
      ensures Valid() && order == [] && start == now && this.world == world && this.slots == slots
    {
      this.world, this.slots, size := world, slots, |slots|;
      start, startIdx, order := now, 0, [];
    }

    /** The millisecond that `now` is measured from. */
    function Base(now: nat): nat
      reads this
    {
      if start == 0 then now else start
    }

    /** An item goes to the end of the list of its millisecond. */
    method File(item: Item, diff: nat)
      requires Valid() && item in world.items && start > 0 && item.expire == start + diff && diff < size
      modifies this`order, world.lists, world.items
      ensures Valid() && item.link != null && (old(item.link) == null ==> item.link in slots)
      ensures world.lists == old(world.lists) && world.items == old(world.items)
      ensures order == if old(item.link) == null then old(order) + [item] else old(order)
      ensures forall i :: i in world.items && i != item ==> i.link == old(i.link)
      ensures forall l :: l in world.lists && l !in slots ==> l.seqn == old(l.seqn)
    {
      hide World.Valid, At;
      var l := slots[(startIdx + diff) % size];
      assert l == slots[SlotAt(startIdx, diff, size)];
      world.AddTail(l, item);
      if old(item.link) == null {
        forall d | 0 <= d < size
          ensures slots[SlotAt(startIdx, d, size)].seqn == At(order + [item], start + d)
        {
          AtSplit(order, [item], start + d);
          AtOne(item, start + d);
          SlotAtInjective(startIdx, d, diff, size);
        }
        order := order + [item];
      }
    }

    /** A wheel that starts with time zero starts now instead. */
    method Rebase(now: nat)
      requires Valid()
      modifies this`start, this`startIdx
      ensures Valid() && start == old(Base(now))
    {
      if start == 0 {
        Empty(0, startIdx, now, 0);
        start, startIdx := now, 0;
      }
    }

    lemma {:induction false} StartsBefore()
      requires Valid()
      ensures 0 < size <= MAX_INT
      ensures forall k :: 0 <= k < |order| ==> start <= order[k].expire
    {
    }

    /** The range test is right for an item that gets that far. */
    predicate Tells(expire: nat, now: nat)
      reads this
    {
      Base(now) <= now <= expire ==> InRange(expire - Base(now), size)
    }

    /** Adds an item. A wheel that starts with time zero first moves its start to now. The clock is
        positive. */
    method AddTimeout(item: Item, now: nat) returns (ok: bool)
      requires Valid() && item in world.items && 0 < now && Tells(item.expire, now)
      modifies this, world.lists, world.items
      ensures Valid() && start == old(Base(now))
      ensures ok <==> start <= now <= item.expire < start + size
      ensures order == if ok && old(item.link) == null then old(order) + [item] else old(order)
      ensures ok ==> item.link != null && (old(item.link) == null ==> item.link in slots)
      ensures world.lists == old(world.lists) && world.items == old(world.items)
      ensures forall i :: i in world.items && i != item ==> i.link == old(i.link)
      ensures !ok ==> item.link == old(item.link)
      ensures forall l :: l in world.lists && l !in slots ==> l.seqn == old(l.seqn)
    {
      Rebase(now);
      if now < start {
        return false;
      }
      if item.expire < now {
        return false;
      }
      var diff := Int32(item.expire - start);
      RangeTest(item.expire - start, size);
      if diff >= size {
        return false;
      }
      File(item, diff);
      return true;
    }

    /** An empty wheel is empty wherever it starts. */
    lemma {:induction false} Empty(from: nat, idx: nat, newFrom: nat, newIdx: nat)
      requires Shape() && Filed(slots, from, idx, [])
      ensures Filed(slots, newFrom, newIdx, [])
    {
      forall d | 0 <= d < size ensures slots[SlotAt(newIdx, d, size)].seqn == [] {
        var e := SlotAtOnto(idx, SlotAt(newIdx, d, size), size);
        assert slots[SlotAt(idx, e, size)].seqn == At([], from + e);
      }
    }

    /** The first `n` milliseconds' slots are empty, the others hold their items. */
    ghost predicate Drained(n: nat)
      requires Shape()
      reads this, world, slots
    {
      forall d :: 0 <= d < size ==>
        slots[SlotAt(startIdx, d, size)].seqn == if d < n then [] else At(order, start + d)
    }

    lemma {:induction false} DrainedNone()
      requires Valid()
      ensures Drained(0)
    {
    }

    /** The loop of `TakeAllTimeout`. */
    method Drain(cnt: nat, result: List)
      requires Valid() && cnt <= size && result in world.lists && result !in slots
      modifies world.lists, world.items
      ensures world.Valid() && world.lists == old(world.lists) && world.items == old(world.items)
      ensures Drained(cnt) && result.seqn == old(result.seqn) + Collect(order, start, cnt)
      ensures forall l :: l in world.lists && l !in slots && l != result ==> l.seqn == old(l.seqn)
      ensures forall i :: i in world.items ==> i.link == old(i.link) || (old(i.link) in slots && i.link == result)
    {
      hide World.Valid, At, Drained;
      DrainedNone();
      for i := 0 to cnt
        invariant world.Valid() && world.lists == old(world.lists) && world.items == old(world.items)
        invariant Drained(i) && result.seqn == old(result.seqn) + Collect(order, start, i)
        invariant forall l :: l in world.lists && l !in slots && l != result ==> l.seqn == old(l.seqn)
        invariant forall x :: x in world.items ==> x.link == old(x.link) || (old(x.link) in slots && x.link == result)
      {
        var idx := (startIdx + i) % size;
        TakeSlot(i, slots[idx], result);
      }
    }

    /** One turn of that loop. */
    method TakeSlot(i: nat, slot: List, result: List)
      requires world.Valid() && Shape() && i < size && Drained(i) && result in world.lists && result !in slots
      requires slot == slots[SlotAt(startIdx, i, size)]
      modifies world.lists, world.items
      ensures world.Valid() && world.lists == old(world.lists) && world.items == old(world.items)
      ensures Drained(i + 1) && result.seqn == old(result.seqn) + At(order, start + i)
      ensures forall l :: l in world.lists && l !in slots && l != result ==> l.seqn == old(l.seqn)
      ensures forall x :: x in world.items ==> x.link == old(x.link) || (old(x.link) in slots && x.link == result)
    {
      hide World.Valid, At;
      world.Join(result, slot);
      forall d | 0 <= d < size && d != i
        ensures slots[SlotAt(startIdx, d, size)].seqn == if d < i then [] else At(order, start + d)
      {
        SlotAtInjective(startIdx, d, i, size);
      }
    }

    /** Moving the start forward files what is left correctly, capped or not. */
    lemma {:induction false} Advance(now: nat, cnt: nat)
      requires Shape() && Within(order, start, start + size) && start <= now
      requires 0 < cnt == (if now - start + 1 > size then size else now - start + 1)
      requires Drained(cnt)
      ensures Filed(slots, now, startIdx + cnt - 1, Later(order, now))
      ensures Within(Later(order, now), now, now + size)
    {
      hide At, Later;
      var idx := startIdx + cnt - 1;
      forall d | 0 <= d < size
        ensures slots[SlotAt(idx, d, size)].seqn == At(Later(order, now), now + d)
      {
        AtLater(order, now, now + d);
        var e := cnt - 1 + d;
        assert SlotAt(idx, d, size) == SlotAt(startIdx, e, size);
        if e >= size {
          SlotAtWraps(startIdx, e, size);
          AtNone(order, start, start + size, now + d);
        }
      }
      LaterMembers(order, now);
    }

    /** How many slots a timeout at `now` takes; negative if it does nothing. */
    function Due(now: nat): int
      reads this
    {
      if now < Base(now) then -1 else Counted(now - Base(now), size)
    }

    /** The clock has gone back, or what has passed is read right. */
    predicate Reads(now: nat)
      reads this
    {
      now < Base(now) || InRange(now - Base(now) + 1, size)
    }

    /** Moves expired items to `result`: all of them, whatever the wheel has missed, if the clock is read
        right, none if the count comes out negative, and else the first `Due` milliseconds. */
    method TakeAllTimeout(now: nat, result: List)
      requires Valid() && result in world.lists && result !in slots
      modifies this, world.lists, world.items
      ensures world.Valid() && world.lists == old(world.lists) && world.items == old(world.items)
      ensures old(Due(now)) < 0 ==> Valid() && start == old(Base(now)) && order == old(order) && result.seqn == old(result.seqn)
      ensures old(Due(now)) >= 0 ==>
        start == now && result.seqn == old(result.seqn) + Collect(old(order), old(Base(now)), old(Due(now)))
      ensures old(Reads(now)) ==>
        && Valid() && order == Later(old(order), now)
        && Delivers(old(order), now, result.seqn[|old(result.seqn)|..])
      ensures forall l :: l in world.lists && l !in slots && l != result ==> l.seqn == old(l.seqn)
      ensures forall i :: i in world.items ==> i.link == old(i.link) || (old(i.link) in slots && i.link == result)
    {
      hide World.Valid, At, Later, Delivers, Collect, Filed, Drained, Within, Int32;
      Rebase(now);
      StartsBefore();
      if now < start {
        NothingDue(order, start, now);
        assert result.seqn[|old(result.seqn)|..] == [];
        return;
      }
      CountTest(now - start, size);
      var cnt := Int32(now - start + 1);
      if cnt > size {
        cnt := size;
      }
      if cnt < 0 {
        return;
      }
      TakeSlots(now, cnt, result);
    }

    lemma {:induction false} LaterNone(now: int)
      requires start == 0 ==> order == []
      ensures start == 0 ==> Later(order, now) == []
    {
    }

    /** The loop of `TakeAllTimeout` and what follows it. */
    method TakeSlots(now: nat, cnt: nat, result: List)
      requires Valid() && start == Base(now) <= now && result in world.lists && result !in slots && cnt == Due(now)
      modifies this, world.lists, world.items
      ensures world.Valid() && world.lists == old(world.lists) && world.items == old(world.items)
      ensures start == now && result.seqn == old(result.seqn) + Collect(old(order), old(start), cnt)
      ensures old(Reads(now)) ==>
        && Valid() && order == Later(old(order), now)
        && Delivers(old(order), now, result.seqn[|old(result.seqn)|..])
      ensures forall l :: l in world.lists && l !in slots && l != result ==> l.seqn == old(l.seqn)
      ensures forall i :: i in world.items ==> i.link == old(i.link) || (old(i.link) in slots && i.link == result)
    {
      hide World.Valid, At, Later, Delivers, Collect, Filed, Drained, Within, Int32;
      StartsBefore();
      CountTest(now - start, size);
      Drain(cnt, result);
      if start == 0 { LaterNone(now); }
      if Reads(now) {
        Advance(now, cnt);
        AllCollected(now, cnt);
        CollectDelivers(order, start, cnt, now);
        order := Later(order, now);
      }
      assert result.seqn[|old(result.seqn)|..] == Collect(old(order), start, cnt);
      start := now;
      startIdx := startIdx + cnt - 1;
    }

    /** Nothing due lies behind what a right count takes. */
    lemma {:induction false} AllCollected(now: nat, cnt: nat)
      requires Within(order, start, start + size) && start <= now
      requires cnt == (if now - start + 1 > size then size else now - start + 1)
      ensures forall k :: 0 <= k < |order| ==> !(start + cnt <= order[k].expire <= now)
    {
    }

    /** Pending items are in the slots. */
    lemma {:induction false} Pending(k: nat)
      requires Valid() && k < |order|
      ensures order[k].link in slots
    {
      var d := order[k].expire - start;
      var l := slots[SlotAt(startIdx, d, size)];
      assert l.seqn == At(order, start + d);
      AtMembers(order, start + d);
      assert l.Owns();
    }

    lemma {:induction false} NotPending(item: Item)
      requires Valid() && item.link !in slots
      ensures item !in order && Without(order, item) == order
    {
      forall k | 0 <= k < |order| ensures order[k] != item { Pending(k); }
      WithoutNone(order, item);
    }

    /** `RemoveFromLink` of an item that may be waiting in the wheel. */
    method Unlink(item: Item)
      requires Valid() && item in world.items
      modifies this`order, world.lists, world.items
      ensures Valid() && world.lists == old(world.lists) && world.items == old(world.items)
      ensures order == Without(old(order), item)
      ensures item.link == null && forall i :: i in world.items && i != item ==> i.link == old(i.link)
      ensures forall l :: l in world.lists && l !in slots && l != old(item.link) ==> l.seqn == old(l.seqn)
      ensures old(item.link) != null && old(item.link) !in slots ==>
        old(item.link).seqn == Without(old(item.link.seqn), item)
    {
      hide World.Valid, At, Without, SlotAt;
      ghost var l, d := item.link, 0;
      if l !in slots { NotPending(item); }
      if l != null {
        world.InItsList(item);
        if l in slots {
          ghost var c :| 0 <= c < size && slots[c] == l;
          d := SlotAtOnto(startIdx, c, size);
          assert slots[SlotAt(startIdx, d, size)].seqn == At(order, start + d);
          AtMembers(order, start + d);
        }
      }
      world.RemoveFromLink(item);
      if l in slots {
        forall e | 0 <= e < size
          ensures slots[SlotAt(startIdx, e, size)].seqn == At(Without(order, item), start + e)
        {
          AtWithout(order, item, start + e);
          SlotAtInjective(startIdx, e, d, size);
        }
        WithoutMembers(order, item);
        order := Without(order, item);
      }
    }
  }

  lemma {:induction false} AtWithout(s: seq<Item>, x: Item, e: nat)
    ensures At(Without(s, x), e) == if x.expire == e then Without(At(s, e), x) else At(s, e)
  {
    if s != [] {
      AtWithout(s[1..], x, e);
      AtFirst(s, e);
      if s[0] == x {
        assert x.expire == e ==> At(s, e)[1..] == At(s[1..], e);
      } else {
        AtSplit([s[0]], Without(s[1..], x), e);
        AtOne(s[0], e);
        hide At;
        if s[0].expire == e {
          assert At(s, e)[1..] == At(s[1..], e);
        } else {
          assert At(s, e) == At(s[1..], e);
        }
      }
    }
  }

  lemma {:induction false} WithoutMembers(s: seq<Item>, x: Item)
    ensures forall k :: 0 <= k < |Without(s, x)| ==> Without(s, x)[k] in s
  {
    if s != [] {
      WithoutMembers(s[1..], x);
    }
  }
}
