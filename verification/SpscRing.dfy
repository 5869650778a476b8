/** The single-producer single-consumer ring buffer of boost::lockfree, one access per step.

    `size_t` arithmetic wraps at `WORD`. The producer and the consumer each work from a copy of the
    other's index that may be out of date. A slot is `None` while no object lives in it, so that
    constructing over a live object or reading a dead one would show.

    `pushed` and `consumed` are auxiliary: the elements of every completed push, and the elements
    handed to the consumer, each in the order it happened. */
module SpscRing {
  import opened Common
  import opened Modular

  const WORD: nat := 0x1_0000_0000_0000_0000

  // ---------------------------------------------------------------- index arithmetic

  function Wrap(x: int): nat {
    x % WORD
  }

  /** `next_index`; the loop of the source subtracts `max` while it can. */
  method NextIndexLoop(arg: nat, max: nat) returns (ret: nat)
    requires 0 < max < WORD && arg < max
    ensures ret == NextIndex(arg, max)
  {
    ret := Wrap(arg + 1);
    while ret >= max
      invariant ret % max == (arg + 1) % max && ret <= arg + 1
    {
      SubMod(ret, max);
      ret := ret - max;
    }
    NextIndexIs(arg, max);
    SmallMod(ret, max);
  }

  function NextIndex(arg: nat, max: nat): nat {
    if arg + 1 >= max then 0 else arg + 1
  }

  function ReadAvailable(write: nat, read: nat, max: nat): nat {
    if write >= read then Wrap(write - read) else Wrap(Wrap(write + max) - read)
  }

  function WriteAvailable(write: nat, read: nat, max: nat): nat {
    var ret := Wrap(Wrap(read - write) - 1);
    if write >= read then Wrap(ret + max) else ret
  }

  lemma {:induction false} WrapSame(x: int)
    requires 0 <= x < WORD
    ensures Wrap(x) == x
  {
  }

  lemma {:induction false} WrapUp(x: int)
    requires 0 <= x + WORD && x < 0
    ensures Wrap(x) == x + WORD
  {
    assert (x + WORD) % WORD == x % WORD;
  }

  lemma {:induction false} WrapDown(x: int)
    requires WORD <= x < 2 * WORD
    ensures Wrap(x) == x - WORD
  {
    assert (x - WORD) % WORD == x % WORD;
  }

  /** Despite the wrap-around, the two counts always add up to the capacity. */
  lemma {:induction false} AvailableSum(write: nat, read: nat, max: nat)
    requires write < max && read < max && max <= WORD
    ensures ReadAvailable(write, read, max) == if write >= read then write - read else write + max - read
    ensures ReadAvailable(write, read, max) + WriteAvailable(write, read, max) == max - 1
  {
    hide Wrap;
    ReadAvailableIs(write, read, max);
    WriteAvailableIs(write, read, max);
  }

  lemma {:induction false} ReadAvailableIs(write: nat, read: nat, max: nat)
    requires write < max && read < max && max <= WORD
    ensures ReadAvailable(write, read, max) == if write >= read then write - read else write + max - read
  {
    hide Wrap;
    if write >= read {
      WrapSame(write - read);
    } else if write + max < WORD {
      WrapSame(write + max);
      WrapSame(write + max - read);
    } else {
      WrapDown(write + max);
      WrapUp(write + max - WORD - read);
    }
  }

  lemma {:induction false} WriteAvailableIs(write: nat, read: nat, max: nat)
    requires write < max && read < max && max <= WORD
    ensures WriteAvailable(write, read, max) == read - write - 1 + if write >= read then max else 0
  {
    hide Wrap;
    if write < read {
      WrapSame(read - write);
      WrapSame(read - write - 1);
    } else {
      if write > read { WrapUp(read - write); WrapSame(read - write + WORD - 1); }
      else { WrapSame(0); WrapUp(-1); }
      WrapDown(read - write - 1 + WORD + max);
    }
  }

  lemma {:induction false} NextIndexIs(arg: nat, max: nat)
    requires arg < max
    ensures NextIndex(arg, max) == (arg + 1) % max
  {
    if arg + 1 == max { SubMod(max, max); SmallMod(0, max); } else { SmallMod(arg + 1, max); }
  }

  // ---------------------------------------------------------------- the two threads

  /** What a push in progress holds: the elements it will store, the index it read at its start, the
      index it will publish and the number of elements stored so far. */
  datatype Producer<T> = Idle | Storing(vs: seq<T>, start: nat, next: nat, done: nat)

  /** What a consume in progress holds; `seen` is set between handing an element over and destroying it. */
  datatype Consumer = Waiting | Taking(count: nat, start: nat, next: nat, done: nat, seen: bool)

  datatype Ring<T> = Ring(max: nat, buf: seq<Option<T>>, write: nat, read: nat,
                          prod: Producer<T>, cons: Consumer, pushed: seq<T>, consumed: seq<T>)

  datatype Step<T> =
    | Push(v: T) | PushMany(vs: seq<T>) | Store | Publish
    | ConsumeOne | PopMany(count: nat) | ConsumeAll | Read | Destroy | Release

  function Init<T>(max: nat): Ring<T> {
    Ring(max, seq(max, _ => None), 0, 0, Idle, Waiting, [], [])
  }

  function Min(a: nat, b: nat): nat {
    if a <= b then a else b
  }

  /** Slot of the `i`-th of `n` elements when a range from `start` is copied in one or two sections. */
  function Section(start: nat, n: nat, max: nat, i: nat): nat {
    if Wrap(start + n) > max && i >= max - start then i - (max - start) else start + i
  }

  /** Index after a range of `n` elements from `start`. */
  function RangeEnd(start: nat, n: nat, max: nat): nat {
    var e := Wrap(start + n);
    if e > max then e - max else if e == max then 0 else e
  }

  function StoreSlot<T>(s: Ring<T>): nat
    requires s.prod.Storing? && s.prod.done < |s.prod.vs|
  {
    Section(s.prod.start, |s.prod.vs|, s.max, s.prod.done)
  }

  function TakeSlot<T>(s: Ring<T>): nat
    requires s.cons.Taking? && s.cons.done < s.cons.count
  {
    Section(s.cons.start, s.cons.count, s.max, s.cons.done)
  }

  /** `push` of one element up to its test of the consumer's index. */
  predicate PushStep<T(==)>(s: Ring<T>, v: T, t: Ring<T>) {
    && s.prod.Idle?
    && var next := NextIndex(s.write, s.max);
    if next == s.read then t == s
    else t == s.(prod := Storing([v], s.write, next, 0))
  }

  /** `push` of a range up to its choice of how much to copy. */
  predicate PushManyStep<T(==)>(s: Ring<T>, vs: seq<T>, t: Ring<T>) {
    && s.prod.Idle?
    && var avail := WriteAvailable(s.write, s.read, s.max);
    if avail == 0 then t == s
    else
      var n := Min(|vs|, avail);
      t == s.(prod := Storing(vs[..n], s.write, RangeEnd(s.write, n, s.max), 0))
  }

  predicate StoreStep<T(==)>(s: Ring<T>, t: Ring<T>) {
    && s.prod.Storing? && s.prod.done < |s.prod.vs|
    && StoreSlot(s) < |s.buf|
    && t == s.(buf := s.buf[StoreSlot(s) := Some(s.prod.vs[s.prod.done])],
               prod := s.prod.(done := s.prod.done + 1))
  }

  predicate PublishStep<T(==)>(s: Ring<T>, t: Ring<T>) {
    && s.prod.Storing? && s.prod.done == |s.prod.vs|
    && t == s.(write := s.prod.next, prod := Idle, pushed := s.pushed + s.prod.vs)
  }

  predicate ConsumeOneStep<T(==)>(s: Ring<T>, t: Ring<T>) {
    && s.cons.Waiting?
    && if s.write == s.read then t == s
       else t == s.(cons := Taking(1, s.read, NextIndex(s.read, s.max), 0, false))
  }

  /** `pop` of a range, and with no limit `consume_all`. */
  predicate TakeManyStep<T(==)>(s: Ring<T>, limit: Option<nat>, t: Ring<T>) {
    && s.cons.Waiting?
    && var avail := ReadAvailable(s.write, s.read, s.max);
    if avail == 0 then t == s
    else
      var n := if limit.Some? then Min(limit.value, avail) else avail;
      t == s.(cons := Taking(n, s.read, RangeEnd(s.read, n, s.max), 0, false))
  }

  predicate ReadStep<T(==)>(s: Ring<T>, t: Ring<T>) {
    && s.cons.Taking? && s.cons.done < s.cons.count && !s.cons.seen
    && TakeSlot(s) < |s.buf| && s.buf[TakeSlot(s)].Some?
    && t == s.(cons := s.cons.(seen := true), consumed := s.consumed + [s.buf[TakeSlot(s)].value])
  }

  predicate DestroyStep<T(==)>(s: Ring<T>, t: Ring<T>) {
    && s.cons.Taking? && s.cons.done < s.cons.count && s.cons.seen
    && TakeSlot(s) < |s.buf|
    && t == s.(buf := s.buf[TakeSlot(s) := None],
               cons := s.cons.(done := s.cons.done + 1, seen := false))
  }

  predicate ReleaseStep<T(==)>(s: Ring<T>, t: Ring<T>) {
    && s.cons.Taking? && s.cons.done == s.cons.count
    && t == s.(read := s.cons.next, cons := Waiting)
  }

  predicate Next<T(==)>(s: Ring<T>, step: Step<T>, t: Ring<T>) {
    match step
    case Push(v) => PushStep(s, v, t)
    case PushMany(vs) => PushManyStep(s, vs, t)
    case Store => StoreStep(s, t)
    case Publish => PublishStep(s, t)
    case ConsumeOne => ConsumeOneStep(s, t)
    case PopMany(count) => TakeManyStep(s, Some(count), t)
    case ConsumeAll => TakeManyStep(s, None, t)
    case Read => ReadStep(s, t)
    case Destroy => DestroyStep(s, t)
    case Release => ReleaseStep(s, t)
  }

  /** A range operation whose index and count add up to less than a word; others always do. */
  predicate Fits<T>(s: Ring<T>, step: Step<T>) {
    match step
    case PushMany(vs) => s.write + Min(|vs|, WriteAvailable(s.write, s.read, s.max)) < WORD
    case PopMany(count) => s.read + Min(count, ReadAvailable(s.write, s.read, s.max)) < WORD
    case ConsumeAll => s.read + ReadAvailable(s.write, s.read, s.max) < WORD
    case _ => true
  }

  /** A run is any interleaving of the two threads' steps from the empty ring. */
  predicate IsRun<T(==)>(run: seq<Ring<T>>, steps: seq<Step<T>>, max: nat) {
    && |run| == |steps| + 1 && run[0] == Init(max)
    && forall i :: 0 <= i < |steps| ==> Next(run[i], steps[i], run[i + 1])
  }

  /** No index wraps around: the ring has at most half a word of slots, or each range operation fits. */
  predicate NoWrap<T>(run: seq<Ring<T>>, steps: seq<Step<T>>, max: nat)
    requires |run| == |steps| + 1
  {
    0 < max < WORD && (max <= WORD / 2 || forall i :: 0 <= i < |steps| ==> Fits(run[i], steps[i]))
  }

  // ---------------------------------------------------------------- what every run keeps

  /** Everything stored so far, published or not. */
  function Stored<T>(s: Ring<T>): seq<T>
    requires s.prod.Storing? ==> s.prod.done <= |s.prod.vs|
  {
    if s.prod.Idle? then s.pushed else s.pushed + s.prod.vs[..s.prod.done]
  }

  /** How many elements have been destroyed. */
  function Gone<T>(s: Ring<T>): int {
    |s.consumed| - if s.cons.Taking? && s.cons.seen then 1 else 0
  }

  /** How many elements' slots the read index has given back. */
  function Released<T>(s: Ring<T>): int {
    Gone(s) - if s.cons.Taking? then s.cons.done else 0
  }

  predicate ProducerOk<T>(s: Ring<T>)
    requires s.max > 0
  {
    s.prod.Storing? ==>
      && s.prod.done <= |s.prod.vs| && s.prod.start == s.write
      && |s.pushed| + |s.prod.vs| < Released(s) + s.max && s.write + |s.prod.vs| < WORD
      && s.prod.next == Slot(|s.pushed| + |s.prod.vs|, s.max)
  }

  predicate ConsumerOk<T>(s: Ring<T>)
    requires s.max > 0
  {
    s.cons.Taking? ==>
      && s.cons.done + (if s.cons.seen then 1 else 0) <= s.cons.count && s.cons.start == s.read
      && 0 <= Released(s) && Released(s) + s.cons.count <= |s.pushed| && s.read + s.cons.count < WORD
      && s.cons.next == Slot(Released(s) + s.cons.count, s.max)
  }

  predicate Indices<T>(s: Ring<T>) {
    && 0 < s.max < WORD && |s.buf| == s.max
    && 0 <= Released(s) && |s.consumed| <= |s.pushed| < Released(s) + s.max
    && s.write == Slot(|s.pushed|, s.max) && s.read == Slot(Released(s), s.max)
    && ProducerOk(s) && ConsumerOk(s)
  }

  /** Live elements sit in their slots; every other slot of the lap is dead. */
  predicate Slots<T(==)>(buf: seq<Option<T>>, stored: seq<T>, gone: nat, max: nat)
    requires max > 0 && |buf| == max
  {
    && (forall k :: gone <= k < |stored| ==> buf[Slot(k, max)] == Some(stored[k]))
    && (forall k :: |stored| <= k < gone + max ==> buf[Slot(k, max)] == None)
  }

  predicate Inv<T(==)>(s: Ring<T>) {
    && Indices(s)
    && s.consumed <= s.pushed
    && Slots(s.buf, Stored(s), Gone(s), s.max)
  }

  lemma {:induction false} SectionIs(k: nat, n: nat, max: nat, i: nat)
    requires 0 < max && i < n < max && Slot(k, max) + n < WORD
    ensures Section(Slot(k, max), n, max, i) == Slot(k + i, max)
  {
    ModPlus(k, i, max);
    WrapSame(Slot(k, max) + n);
  }

  lemma {:induction false} RangeEndIs(k: nat, n: nat, max: nat)
    requires 0 < max && n < max && Slot(k, max) + n < WORD
    ensures RangeEnd(Slot(k, max), n, max) == Slot(k + n, max)
  {
    ModPlus(k, n, max);
    WrapSame(Slot(k, max) + n);
  }

  /** The index after a range is right exactly if adding the count does not wrap around. */
  lemma {:induction false} RangeEndExact(start: nat, n: nat, max: nat)
    requires start < max < WORD && n < max
    ensures RangeEnd(start, n, max) == Slot(start + n, max) <==> start + n < WORD
    ensures max <= WORD / 2 ==> start + n < WORD
  {
    SmallMod(start, max);
    if start + n < WORD {
      RangeEndIs(start, n, max);
    } else {
      WrapDown(start + n);
      ModPlus(start, n, max);
    }
  }

  /** It is right for all ranges exactly up to half a word of slots. */
  lemma {:induction false} SizeExact(max: nat)
    requires 0 < max < WORD
    ensures max <= WORD / 2 <==>
      forall start: nat, n: nat :: start < max && n < max ==> RangeEnd(start, n, max) == Slot(start + n, max)
  {
    if max <= WORD / 2 {
      forall start: nat, n: nat | start < max && n < max ensures RangeEnd(start, n, max) == Slot(start + n, max) {
        RangeEndExact(start, n, max);
      }
    } else {
      RangeEndExact(max - 1, max - 1, max);
      assert RangeEnd(max - 1, max - 1, max) != Slot(max - 1 + max - 1, max);
    }
  }

  lemma {:induction false} NextIs(k: nat, max: nat)
    requires 0 < max
    ensures NextIndex(Slot(k, max), max) == Slot(k + 1, max)
  {
    ModPlus(k, 1, max);
  }

  /** The counts computed from the two indices are the true ones. */
  lemma {:induction false} CountsAre(published: nat, released: nat, max: nat)
    requires 0 < max <= WORD && released <= published < released + max
    ensures ReadAvailable(Slot(published, max), Slot(released, max), max) == published - released
    ensures WriteAvailable(Slot(published, max), Slot(released, max), max) == released + max - 1 - published
    ensures Slot(published, max) == Slot(released, max) <==> published == released
    ensures NextIndex(Slot(published, max), max) == Slot(released, max) <==> published + 1 == released + max
  {
    ModPlus(released, published - released, max);
    AvailableSum(Slot(published, max), Slot(released, max), max);
    NextIs(published, max);
    ModPlus(released, published + 1 - released, max);
  }

  /** Storing the next element keeps the slots. */
  lemma {:induction false} StoreKeepsSlots<T>(buf: seq<Option<T>>, stored: seq<T>, gone: nat, max: nat, v: T)
    requires 0 < max && |buf| == max && gone <= |stored| < gone + max
    requires Slots(buf, stored, gone, max)
    ensures Slots(buf[Slot(|stored|, max) := Some(v)], stored + [v], gone, max)
  {
    forall k | gone <= k < |stored| ensures Slot(k, max) != Slot(|stored|, max) {
      ModInjective(k, |stored|, max);
    }
    forall k | |stored| < k < gone + max ensures Slot(k, max) != Slot(|stored|, max) {
      ModInjective(|stored|, k, max);
    }
  }

  /** Destroying the oldest element keeps the slots. */
  lemma {:induction false} DestroyKeepsSlots<T>(buf: seq<Option<T>>, stored: seq<T>, gone: nat, max: nat)
    requires 0 < max && |buf| == max && gone < |stored| <= gone + max
    requires Slots(buf, stored, gone, max)
    ensures Slots(buf[Slot(gone, max) := None], stored, gone + 1, max)
  {
    forall k | gone < k < gone + max ensures Slot(k, max) != Slot(gone, max) {
      ModInjective(gone, k, max);
    }
    ModPlus(gone, max, max);
  }

  /** The slot about to be stored to is dead. */
  lemma {:induction false} StoreSlotDead<T>(s: Ring<T>)
    requires Inv(s) && s.prod.Storing? && s.prod.done < |s.prod.vs|
    ensures StoreSlot(s) == Slot(|Stored(s)|, s.max) < s.max && s.buf[StoreSlot(s)] == None
  {
    SectionIs(|s.pushed|, |s.prod.vs|, s.max, s.prod.done);
  }

  /** The slot about to be read or destroyed holds the oldest unconsumed element. */
  lemma {:induction false} TakeSlotLive<T>(s: Ring<T>)
    requires Inv(s) && s.cons.Taking? && s.cons.done < s.cons.count
    ensures TakeSlot(s) == Slot(Gone(s), s.max) < s.max
    ensures s.buf[TakeSlot(s)] == Some(s.pushed[Gone(s)])
  {
    SectionIs(Released(s), s.cons.count, s.max, s.cons.done);
    assert Stored(s)[Gone(s)] == s.pushed[Gone(s)];
  }

  // ---------------------------------------------------------------- every step

  lemma {:induction false} InRing<T>(s: Ring<T>)
    requires Inv(s)
    ensures s.write < s.max && s.read < s.max
  {
  }

  lemma {:induction false} PushKeepsInv<T>(s: Ring<T>, v: T, t: Ring<T>)
    requires Inv(s) && PushStep(s, v, t)
    ensures Inv(t)
    ensures t.prod.Idle? <==> |s.pushed| - Released(s) == s.max - 1
    ensures t.prod.Storing? ==> t.prod.vs == [v]
  {
    hide Slot, Slots, RangeEnd, ReadAvailable, WriteAvailable, NextIndex, Section;
    InRing(s);
    CountsAre(|s.pushed|, Released(s), s.max);
    NextIs(|s.pushed|, s.max);
    assert Stored(t) == Stored(s);
  }

  lemma {:induction false} PushManyKeepsInv<T>(s: Ring<T>, vs: seq<T>, t: Ring<T>)
    requires Inv(s) && PushManyStep(s, vs, t) && Fits(s, PushMany(vs))
    ensures Inv(t)
    ensures t.prod.Idle? <==> |s.pushed| - Released(s) == s.max - 1
    ensures t.prod.Storing? ==> t.prod.vs == vs[..Min(|vs|, s.max - 1 - (|s.pushed| - Released(s)))]
  {
    hide Slot, Slots, RangeEnd, ReadAvailable, WriteAvailable, NextIndex, Section;
    CountsAre(|s.pushed|, Released(s), s.max);
    if t.prod.Storing? { RangeEndIs(|s.pushed|, |t.prod.vs|, s.max); }
    assert Stored(t) == Stored(s);
  }

  lemma {:induction false} StoreKeepsInv<T>(s: Ring<T>, t: Ring<T>)
    requires Inv(s) && StoreStep(s, t)
    ensures Inv(t)
  {
    hide Slot, Slots, RangeEnd, ReadAvailable, WriteAvailable, NextIndex, Section;
    StoreSlotDead(s);
    StoreKeepsSlots(s.buf, Stored(s), Gone(s), s.max, s.prod.vs[s.prod.done]);
    assert Stored(t) == Stored(s) + [s.prod.vs[s.prod.done]];
  }

  lemma {:induction false} PublishKeepsInv<T>(s: Ring<T>, t: Ring<T>)
    requires Inv(s) && PublishStep(s, t)
    ensures Inv(t)
  {
    hide Slot, Slots, RangeEnd, ReadAvailable, WriteAvailable, NextIndex, Section;
    assert Stored(t) == Stored(s);
  }

  lemma {:induction false} ConsumeOneKeepsInv<T>(s: Ring<T>, t: Ring<T>)
    requires Inv(s) && ConsumeOneStep(s, t)
    ensures Inv(t)
    ensures t.cons.Waiting? <==> s.consumed == s.pushed
    ensures t.cons.Taking? ==> t.cons.count == 1
  {
    hide Slot, Slots, RangeEnd, ReadAvailable, WriteAvailable, NextIndex, Section;
    InRing(s);
    CountsAre(|s.pushed|, Released(s), s.max);
    NextIs(Released(s), s.max);
  }

  lemma {:induction false} TakeManyKeepsInv<T>(s: Ring<T>, limit: Option<nat>, t: Ring<T>)
    requires Inv(s) && TakeManyStep(s, limit, t) && Fits(s, if limit.Some? then PopMany(limit.value) else ConsumeAll)
    ensures Inv(t)
    ensures t.cons.Waiting? <==> s.consumed == s.pushed
    ensures t.cons.Taking? ==>
              var all := |s.pushed| - |s.consumed|;
              t.cons.count == if limit.Some? then Min(limit.value, all) else all
  {
    hide Slot, Slots, RangeEnd, ReadAvailable, WriteAvailable, NextIndex, Section;
    CountsAre(|s.pushed|, Released(s), s.max);
    if t.cons.Taking? { RangeEndIs(Released(s), t.cons.count, s.max); }
  }

  lemma {:induction false} ReadKeepsInv<T>(s: Ring<T>, t: Ring<T>)
    requires Inv(s) && ReadStep(s, t)
    ensures Inv(t)
  {
    hide Slot, Slots, RangeEnd, ReadAvailable, WriteAvailable, NextIndex, Section;
    TakeSlotLive(s);
  }

  lemma {:induction false} DestroyKeepsInv<T>(s: Ring<T>, t: Ring<T>)
    requires Inv(s) && DestroyStep(s, t)
    ensures Inv(t)
  {
    hide Slot, Slots, RangeEnd, ReadAvailable, WriteAvailable, NextIndex, Section;
    TakeSlotLive(s);
    DestroyKeepsSlots(s.buf, Stored(s), Gone(s), s.max);
  }

  lemma {:induction false} ReleaseKeepsInv<T>(s: Ring<T>, t: Ring<T>)
    requires Inv(s) && ReleaseStep(s, t)
    ensures Inv(t)
  {
    hide Slot, Slots, RangeEnd, ReadAvailable, WriteAvailable, NextIndex, Section;
  }

  lemma {:induction false} NextKeepsInv<T>(s: Ring<T>, step: Step<T>, t: Ring<T>)
    requires Inv(s) && Next(s, step, t) && Fits(s, step)
    ensures Inv(t)
  {
    hide Inv, PushStep, PushManyStep, StoreStep, PublishStep, ConsumeOneStep, TakeManyStep, ReadStep,
         DestroyStep, ReleaseStep;
    match step
    case Push(v) => PushKeepsInv(s, v, t);
    case PushMany(vs) => PushManyKeepsInv(s, vs, t);
    case Store => StoreKeepsInv(s, t);
    case Publish => PublishKeepsInv(s, t);
    case ConsumeOne => ConsumeOneKeepsInv(s, t);
    case PopMany(count) => TakeManyKeepsInv(s, Some(count), t);
    case ConsumeAll => TakeManyKeepsInv(s, None, t);
    case Read => ReadKeepsInv(s, t);
    case Destroy => DestroyKeepsInv(s, t);
    case Release => ReleaseKeepsInv(s, t);
  }

  lemma {:induction false} SameMax<T>(s: Ring<T>, step: Step<T>, t: Ring<T>)
    requires Next(s, step, t)
    ensures t.max == s.max
  {
  }

  /** In a ring of at most half a word of slots everything fits. */
  lemma {:induction false} SmallFits<T>(s: Ring<T>, step: Step<T>)
    requires Inv(s) && s.max <= WORD / 2
    ensures Fits(s, step)
  {
    hide Slots, ReadAvailable, WriteAvailable;
    CountsAre(|s.pushed|, Released(s), s.max);
  }

  lemma {:induction false} RunHasInv<T>(run: seq<Ring<T>>, steps: seq<Step<T>>, max: nat, i: nat)
    requires IsRun(run, steps, max) && NoWrap(run, steps, max) && i < |run|
    ensures Inv(run[i]) && run[i].max == max
  {
    if i > 0 {
      RunHasInv(run, steps, max, i - 1);
      hide Inv, Next, Fits;
      assert Next(run[i - 1], steps[i - 1], run[i]);
      if max <= WORD / 2 { SmallFits(run[i - 1], steps[i - 1]); }
      SameMax(run[i - 1], steps[i - 1], run[i]);
      NextKeepsInv(run[i - 1], steps[i - 1], run[i]);
    }
  }

  // ---------------------------------------------------------------- whole runs

  /** How many elements the consume in progress has handed over. */
  function Taken<T>(s: Ring<T>): nat {
    if s.cons.Taking? then s.cons.done + (if s.cons.seen then 1 else 0) else 0
  }

  lemma {:induction false} BufferedAt<T>(s: Ring<T>, k: nat)
    requires Inv(s) && k < |s.pushed| - |s.consumed|
    ensures s.buf[Slot(s.read + Taken(s) + k, s.max)] == Some(s.pushed[|s.consumed| + k])
  {
    var d := Taken(s) + k;
    ModPlus(Released(s), d, s.max);
    ModPlus(s.read, d, s.max);
    SmallMod(s.read, s.max);
    assert Stored(s)[|s.consumed| + k] == s.pushed[|s.consumed| + k];
  }

  lemma {:induction false} BufferedCount<T>(s: Ring<T>)
    requires Inv(s)
    ensures ReadAvailable(s.write, s.read, s.max) - Taken(s) == |s.pushed| - |s.consumed|
  {
    CountsAre(|s.pushed|, Released(s), s.max);
  }

  /** The elements waiting in the ring, read off the slots from the read index on; the two indices
      give their number. */
  function Buffered<T>(s: Ring<T>): seq<T>
    requires Inv(s)
  {
    BufferedCount(s);
    var n := ReadAvailable(s.write, s.read, s.max) - Taken(s);
    seq(n, k requires 0 <= k < n => BufferedAt(s, k); s.buf[Slot(s.read + Taken(s) + k, s.max)].value)
  }

  lemma {:induction false} BufferedIs<T>(s: Ring<T>)
    requires Inv(s)
    ensures s.consumed <= s.pushed && Buffered(s) == s.pushed[|s.consumed|..]
  {
    hide Slot, Slots, ReadAvailable;
    BufferedCount(s);
    forall k | 0 <= k < |s.pushed| - |s.consumed|
      ensures Buffered(s)[k] == s.pushed[|s.consumed| + k]
    {
      BufferedAt(s, k);
    }
  }

  /** In every state of every interleaving, what was consumed followed by what the ring holds is what
      was pushed. */
  lemma {:induction false} Conservation<T>(run: seq<Ring<T>>, steps: seq<Step<T>>, max: nat, i: nat)
    requires IsRun(run, steps, max) && NoWrap(run, steps, max) && i < |run|
    ensures Inv(run[i]) && run[i].consumed + Buffered(run[i]) == run[i].pushed
  {
    hide IsRun, NoWrap, Inv, Buffered;
    RunHasInv(run, steps, max, i);
    BufferedIs(run[i]);
  }

  /** In every state of every interleaving: a store goes to a slot with no live object, a read finds a
      live one, the two threads never work on the same slot, and the two counts add up. */
  lemma {:induction false} RaceFree<T>(run: seq<Ring<T>>, steps: seq<Step<T>>, max: nat, i: nat)
    requires IsRun(run, steps, max) && NoWrap(run, steps, max) && i < |run|
    ensures var s := run[i];
      var storing := s.prod.Storing? && s.prod.done < |s.prod.vs|;
      var taking := s.cons.Taking? && s.cons.done < s.cons.count;
      && |s.buf| == max
      && (storing ==> StoreSlot(s) < max && s.buf[StoreSlot(s)] == None)
      && (taking ==> TakeSlot(s) < max && s.buf[TakeSlot(s)].Some?)
      && (storing && taking ==> StoreSlot(s) != TakeSlot(s))
      && ReadAvailable(s.write, s.read, max) + WriteAvailable(s.write, s.read, max) == max - 1
  {
    RunHasInv(run, steps, max, i);
    var s := run[i];
    if s.prod.Storing? && s.prod.done < |s.prod.vs| { StoreSlotDead(s); }
    if s.cons.Taking? && s.cons.done < s.cons.count { TakeSlotLive(s); }
    AvailableSum(s.write, s.read, max);
  }
}
