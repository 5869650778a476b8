/** groupcache's two caches: the values this peer owns and the popular values of others, filled by
    concurrent loads with one flight per key, and kept under a byte limit by evicting the oldest.

    The LRU list and the single-flight group are taken by their contracts: the list keeps its entries
    from the latest to the oldest used, and at most one call per key runs at a time. */
module GroupCache {

  // ---------------------------------------------------------------- one cache

  datatype Entry = Entry(key: string, value: seq<bv8>)

  datatype CacheState = CacheState(entries: seq<Entry>, nbytes: int, nget: nat, nhit: nat, nevict: nat)

  const EMPTY: CacheState := CacheState([], 0, 0, 0, 0)

  function Size(e: Entry): nat {
    |e.key| + |e.value|
  }

  function Sum(s: seq<Entry>): nat {
    if s == [] then 0 else Size(s[0]) + Sum(s[1..])
  }

  predicate Has(s: seq<Entry>, key: string) {
    exists k :: 0 <= k < |s| && s[k].key == key
  }

  /** `s` without the entry of `key`. */
  function Without(s: seq<Entry>, key: string): seq<Entry> {
    if s == [] then [] else if s[0].key == key then s[1..] else [s[0]] + Without(s[1..], key)
  }

  function Find(s: seq<Entry>, key: string): Entry
    requires Has(s, key)
  {
    if s[0].key == key then s[0] else Find(s[1..], key)
  }

  /** `cache.add`: the LRU list replaces the entry of a key it has. */
  function Added(c: CacheState, key: string, value: seq<bv8>): CacheState {
    var e := Entry(key, value);
    c.(entries := [e] + Without(c.entries, key), nbytes := c.nbytes + Size(e))
  }

  /** `cache.get`: a hit becomes the latest used. */
  function Looked(c: CacheState, key: string): CacheState {
    if Has(c.entries, key)
    then c.(entries := [Find(c.entries, key)] + Without(c.entries, key), nget := c.nget + 1, nhit := c.nhit + 1)
    else c.(nget := c.nget + 1)
  }

  /** `cache.removeOldest`, with the eviction callback. */
  function Dropped(c: CacheState): CacheState {
    if c.entries == [] then c
    else
      var last := c.entries[|c.entries| - 1];
      c.(entries := c.entries[..|c.entries| - 1], nbytes := c.nbytes - Size(last), nevict := c.nevict + 1)
  }

  /** No key twice, and the byte count is the size of what is there. */
  predicate Sound(c: CacheState) {
    && (forall j, k :: 0 <= j < k < |c.entries| ==> c.entries[j].key != c.entries[k].key)
    && c.nbytes == Sum(c.entries)
  }

  lemma {:induction false} WithoutAbsent(s: seq<Entry>, key: string)
    requires !Has(s, key)
    ensures Without(s, key) == s
  {
    if s != [] {
      assert s[0].key != key && forall k :: 0 <= k < |s| - 1 ==> s[1..][k] == s[k + 1];
      WithoutAbsent(s[1..], key);
    }
  }

  lemma {:induction false} WithoutPresent(s: seq<Entry>, key: string)
    requires Has(s, key) && forall j, k :: 0 <= j < k < |s| ==> s[j].key != s[k].key
    ensures Find(s, key) in s && Find(s, key).key == key
    ensures Sum(Without(s, key)) == Sum(s) - Size(Find(s, key))
    ensures forall e :: e in Without(s, key) <==> e in s && e.key != key
    ensures forall j, k :: 0 <= j < k < |Without(s, key)| ==> Without(s, key)[j].key != Without(s, key)[k].key
  {
    if s[0].key == key {
      assert forall k :: 0 <= k < |s| - 1 ==> s[1..][k] == s[k + 1];
      assert s == [s[0]] + s[1..];
    } else {
      assert Has(s[1..], key) by {
        var k :| 0 <= k < |s| && s[k].key == key;
        assert s[1..][k - 1] == s[k];
      }
      WithoutPresent(s[1..], key);
      WithoutFront(s[0], s[1..], Without(s[1..], key), Find(s[1..], key));
      assert s == [s[0]] + s[1..];
    }
  }

  /** Putting an entry in front of both. */
  lemma {:induction false} WithoutFront(e: Entry, s: seq<Entry>, rest: seq<Entry>, gone: Entry)
    requires e.key != gone.key && gone in s && Sum(rest) == Sum(s) - Size(gone)
    requires forall x :: x in rest <==> x in s && x.key != gone.key
    requires forall j, k :: 0 <= j < k < |rest| ==> rest[j].key != rest[k].key
    requires forall k :: 0 <= k < |s| ==> s[k].key != e.key
    ensures var t, u := [e] + s, [e] + rest;
      && gone in t && Sum(u) == Sum(t) - Size(gone)
      && (forall x :: x in u <==> x in t && x.key != gone.key)
      && forall j, k :: 0 <= j < k < |u| ==> u[j].key != u[k].key
  {
    hide Sum;
    SumFront(e, s);
    SumFront(e, rest);
    assert forall k :: 0 <= k < |rest| ==> rest[k] in s;
  }

  lemma {:induction false} SumFront(e: Entry, s: seq<Entry>)
    ensures Sum([e] + s) == Size(e) + Sum(s)
  {
    assert ([e] + s)[1..] == s;
  }

  lemma {:induction false} SumSnoc(s: seq<Entry>)
    requires s != []
    ensures Sum(s) == Sum(s[..|s| - 1]) + Size(s[|s| - 1])
  {
    if |s| > 1 {
      SumSnoc(s[1..]);
      assert s[1..][..|s| - 2] == s[..|s| - 1][1..];
    }
  }

  predicate HasKey(c: CacheState, key: string) {
    Has(c.entries, key)
  }

  /** Adding keeps the count right exactly for a key that is not there, or there with nothing to count. */
  lemma {:induction false} AddSound(c: CacheState, key: string, value: seq<bv8>)
    requires Sound(c)
    ensures Sound(Added(c, key, value)) <==> !HasKey(c, key) || Size(Find(c.entries, key)) == 0
    ensures forall k :: HasKey(Added(c, key, value), k) <==> HasKey(c, k) || k == key
  {
    var e, rest := Entry(key, value), Without(c.entries, key);
    if HasKey(c, key) { WithoutPresent(c.entries, key); } else { WithoutAbsent(c.entries, key); }
    var t := [e] + rest;
    assert t[1..] == rest && t[0] == e;
    forall j, k | 0 <= j < k < |t| ensures t[j].key != t[k].key {
      assert t[k] == rest[k - 1] && (j > 0 ==> t[j] == rest[j - 1]);
      assert rest[k - 1] in rest;
    }
    forall k ensures Has(t, k) <==> Has(c.entries, k) || k == key {
      HasFront(e, rest, k);
      HasMembers(rest, k);
      HasMembers(c.entries, k);
    }
  }

  lemma {:induction false} HasMembers(s: seq<Entry>, key: string)
    ensures Has(s, key) <==> exists e :: e in s && e.key == key
  {
    if Has(s, key) {
      var k :| 0 <= k < |s| && s[k].key == key;
      assert s[k] in s;
    }
  }

  lemma {:induction false} HasFront(e: Entry, s: seq<Entry>, key: string)
    ensures Has([e] + s, key) <==> e.key == key || Has(s, key)
  {
    var t := [e] + s;
    if Has(s, key) {
      var k :| 0 <= k < |s| && s[k].key == key;
      assert t[k + 1] == s[k];
    }
    if e.key == key { assert t[0] == e; }
    if Has(t, key) {
      var k :| 0 <= k < |t| && t[k].key == key;
      assert k > 0 ==> s[k - 1] == t[k];
    }
  }

  lemma {:induction false} LookSound(c: CacheState, key: string)
    requires Sound(c)
    ensures Sound(Looked(c, key)) && forall k :: HasKey(Looked(c, key), k) <==> HasKey(c, k)
  {
    if HasKey(c, key) {
      var e, rest := Find(c.entries, key), Without(c.entries, key);
      WithoutPresent(c.entries, key);
      var t := [e] + rest;
      assert t[1..] == rest && t[0] == e;
      forall j, k | 0 <= j < k < |t| ensures t[j].key != t[k].key {
        assert t[k] == rest[k - 1] && (j > 0 ==> t[j] == rest[j - 1]);
        assert rest[k - 1] in rest;
      }
      forall k ensures Has(t, k) <==> Has(c.entries, k) {
        HasFront(e, rest, k);
        HasMembers(rest, k);
        HasMembers(c.entries, k);
      }
    }
  }

  lemma {:induction false} DropSound(c: CacheState)
    requires Sound(c)
    ensures Sound(Dropped(c)) && forall k :: HasKey(Dropped(c), k) ==> HasKey(c, k)
  {
    if c.entries != [] {
      SumSnoc(c.entries);
    }
  }

  // ---------------------------------------------------------------- concurrent loads

  datatype Which = Main | Hot

  /** Where a caller of `Get` is. From `FnMain` on it runs the flight of its key. */
  datatype Local =
    | Idle
    | GetMain(key: string) | GetHot(key: string) | Load(key: string)
    | FnMain(key: string) | FnHot(key: string) | Fetch(key: string)
    | Add(key: string, value: seq<bv8>, which: Which)
    | MainBytes(key: string) | HotBytes(key: string, main: int) | Evict(key: string, victim: Which)

  datatype Group = Group(cacheBytes: int, main: CacheState, hot: CacheState, threads: map<nat, Local>)

  predicate InFlight(l: Local) {
    !l.Idle? && !l.GetMain? && !l.GetHot? && !l.Load?
  }

  function At(g: Group, t: nat): Local {
    if t in g.threads then g.threads[t] else Idle
  }

  function Go(g: Group, t: nat, l: Local): Group {
    g.(threads := g.threads[t := l])
  }

  /** One access to a cache, or one choice, per step. */
  datatype Step =
    | Call(t: nat, key: string) | Look(t: nat) | Fly(t: nat) | Share(t: nat)
    | FromPeer(t: nat, value: seq<bv8>, keep: bool) | Locally(t: nat, value: seq<bv8>) | Fail(t: nat)
    | Put(t: nat) | Measure(t: nat) | Drop(t: nat)

  /** One of the two lookups of `lookupCache`; without a byte limit nothing is ever found. */
  function LookNext(g: Group, t: nat): Group {
    match At(g, t)
    case GetMain(key) =>
      if g.cacheBytes <= 0 then Go(g, t, Load(key))
      else Go(g.(main := Looked(g.main, key)), t, if HasKey(g.main, key) then Idle else GetHot(key))
    case GetHot(key) => Go(g.(hot := Looked(g.hot, key)), t, if HasKey(g.hot, key) then Idle else Load(key))
    case FnMain(key) =>
      if g.cacheBytes <= 0 then Go(g, t, Fetch(key))
      else Go(g.(main := Looked(g.main, key)), t, if HasKey(g.main, key) then Idle else FnHot(key))
    case FnHot(key) => Go(g.(hot := Looked(g.hot, key)), t, if HasKey(g.hot, key) then Idle else Fetch(key))
    case _ => g
  }

  predicate Next(g: Group, step: Step, h: Group) {
    match step
    case Call(t, key) => At(g, t).Idle? && h == Go(g, t, GetMain(key))
    case Look(t) =>
      var l := At(g, t);
      (l.GetMain? || l.GetHot? || l.FnMain? || l.FnHot?) && h == LookNext(g, t)
    case Fly(t) =>
      && At(g, t).Load? && (forall u :: u in g.threads && InFlight(g.threads[u]) ==> g.threads[u].key != At(g, t).key)
      && h == Go(g, t, FnMain(At(g, t).key))
    case Share(t) => At(g, t).Load? && h == Go(g, t, Idle)
    case FromPeer(t, value, keep) =>
      && At(g, t).Fetch?
      && h == Go(g, t, if keep && g.cacheBytes > 0 then Add(At(g, t).key, value, Hot) else Idle)
    case Locally(t, value) =>
      && At(g, t).Fetch? && h == Go(g, t, if g.cacheBytes > 0 then Add(At(g, t).key, value, Main) else Idle)
    case Fail(t) => At(g, t).Fetch? && h == Go(g, t, Idle)
    case Put(t) =>
      && At(g, t).Add?
      && var l := At(g, t);
      && var k := Go(g, t, MainBytes(l.key));
      h == if l.which == Main then k.(main := Added(g.main, l.key, l.value))
           else k.(hot := Added(g.hot, l.key, l.value))
    case Measure(t) =>
      var l := At(g, t);
      if l.MainBytes? then h == Go(g, t, HotBytes(l.key, g.main.nbytes))
      else if l.HotBytes? then
        if l.main + g.hot.nbytes <= g.cacheBytes then h == Go(g, t, Idle)
        else h == Go(g, t, Evict(l.key, if g.hot.nbytes > l.main / 8 then Hot else Main))
      else false
    case Drop(t) =>
      && At(g, t).Evict?
      && var l := At(g, t);
      && var k := Go(g, t, MainBytes(l.key));
      h == if l.victim == Main then k.(main := Dropped(g.main)) else k.(hot := Dropped(g.hot))
  }

  predicate IsRun(run: seq<Group>, steps: seq<Step>, cacheBytes: int) {
    && |run| == |steps| + 1 && run[0] == Group(cacheBytes, EMPTY, EMPTY, map[])
    && forall i :: 0 <= i < |steps| ==> Next(run[i], steps[i], run[i + 1])
  }

  // ---------------------------------------------------------------- what every run keeps

  /** What a flight knows about its key. */
  predicate Knows(g: Group, l: Local) {
    && ((l.FnHot? || l.Fetch? || l.Add?) && g.cacheBytes > 0 ==> !HasKey(g.main, l.key))
    && ((l.Fetch? || l.Add?) && g.cacheBytes > 0 ==> !HasKey(g.hot, l.key))
    && (l.Add? ==> g.cacheBytes > 0)
  }

  predicate OneFlight(g: Group) {
    forall t, u :: t in g.threads && u in g.threads && t != u && InFlight(g.threads[t]) && InFlight(g.threads[u]) ==>
      g.threads[t].key != g.threads[u].key
  }

  ghost predicate Apart(g: Group) {
    forall k :: HasKey(g.main, k) ==> !HasKey(g.hot, k)
  }

  ghost predicate Inv(g: Group) {
    && Sound(g.main) && Sound(g.hot) && Apart(g) && OneFlight(g)
    && forall t :: t in g.threads ==> Knows(g, g.threads[t])
  }

  /** A thread moves on while the caches hold the same keys, or fewer. */
  lemma {:induction false} MoveKeeps(g: Group, t: nat, l: Local, h: Group)
    requires Inv(g) && h.threads == g.threads[t := l] && h.cacheBytes == g.cacheBytes
    requires Sound(h.main) && Sound(h.hot) && Knows(h, l)
    requires forall k :: HasKey(h.main, k) ==> HasKey(g.main, k)
    requires forall k :: HasKey(h.hot, k) ==> HasKey(g.hot, k)
    requires InFlight(l) ==> InFlight(At(g, t)) && l.key == At(g, t).key
    ensures Inv(h)
  {
    hide Sound, HasKey;
  }

  lemma {:induction false} LookKeeps(g: Group, t: nat, h: Group)
    requires Inv(g) && Next(g, Look(t), h)
    ensures Inv(h)
  {
    hide Sound, HasKey, Looked;
    var l := At(g, t);
    assert Knows(g, l);
    LookSound(g.main, l.key);
    LookSound(g.hot, l.key);
    MoveKeeps(g, t, At(h, t), h);
  }

  lemma {:induction false} FlyKeeps(g: Group, t: nat, h: Group)
    requires Inv(g) && Next(g, Fly(t), h)
    ensures Inv(h)
  {
    hide Sound, HasKey;
  }

  lemma {:induction false} PutKeeps(g: Group, t: nat, h: Group)
    requires Inv(g) && Next(g, Put(t), h)
    ensures Inv(h)
  {
    hide Sound, HasKey, Added;
    var l := At(g, t);
    assert Knows(g, l);
    if l.which == Main { AddSound(g.main, l.key, l.value); } else { AddSound(g.hot, l.key, l.value); }
    forall u | u in h.threads ensures Knows(h, h.threads[u]) {
      if u != t {
        assert Knows(g, g.threads[u]);
        assert InFlight(g.threads[u]) ==> g.threads[u].key != l.key;
      }
    }
  }

  lemma {:induction false} DropKeeps(g: Group, t: nat, h: Group)
    requires Inv(g) && Next(g, Drop(t), h)
    ensures Inv(h)
  {
    hide Sound, HasKey, Dropped;
    DropSound(g.main);
    DropSound(g.hot);
    MoveKeeps(g, t, At(h, t), h);
  }

  lemma {:induction false} NextKeepsInv(g: Group, step: Step, h: Group)
    requires Inv(g) && Next(g, step, h)
    ensures Inv(h)
  {
    if step.Look? {
      LookKeeps(g, step.t, h);
    } else if step.Fly? {
      FlyKeeps(g, step.t, h);
    } else if step.Put? {
      PutKeeps(g, step.t, h);
    } else if step.Drop? {
      DropKeeps(g, step.t, h);
    } else {
      hide Sound, HasKey;
      assert At(g, step.t).Idle? || Knows(g, At(g, step.t));
      MoveKeeps(g, step.t, At(h, step.t), h);
    }
  }

  /** In every run the two caches never share a key and each byte count is the size of what is there. */
  lemma {:induction false} CachesSound(run: seq<Group>, steps: seq<Step>, cacheBytes: int, i: nat)
    requires IsRun(run, steps, cacheBytes) && i < |run|
    ensures Inv(run[i]) && run[i].cacheBytes == cacheBytes
  {
    if i > 0 {
      CachesSound(run, steps, cacheBytes, i - 1);
      assert Next(run[i - 1], steps[i - 1], run[i]);
      NextKeepsInv(run[i - 1], steps[i - 1], run[i]);
    }
  }

  // ---------------------------------------------------------------- the limit, whoever evicts

  lemma {:induction false} BytesMeanEntries(c: CacheState)
    requires Sound(c)
    ensures c.nbytes >= 0 && (c.nbytes > 0 ==> c.entries != [])
  {
  }

  function Bytes(g: Group): int {
    g.main.nbytes + g.hot.nbytes
  }

  /** The thread is in the loop of `populateCache`. */
  predicate Evicting(l: Local) {
    l.MainBytes? || l.HotBytes? || l.Evict?
  }

  /** The thread will not leave the loop while the caches are as large as now: what it has measured of the
      main cache is no less than what is there. */
  predicate Answers(g: Group, l: Local) {
    l.MainBytes? || l.Evict? || (l.HotBytes? && l.main >= g.main.nbytes)
  }

  /** Caches above the limit always have a caller that answers for it; without a limit nothing is kept. */
  ghost predicate Limited(g: Group) {
    && (g.cacheBytes > 0 && Bytes(g) > g.cacheBytes ==> exists t :: t in g.threads && Answers(g, g.threads[t]))
    && (g.cacheBytes <= 0 ==> g.main.entries == [] && g.hot.entries == [])
  }

  lemma {:induction false} DropLess(c: CacheState)
    requires Sound(c)
    ensures Dropped(c).nbytes <= c.nbytes && |Dropped(c).entries| <= |c.entries|
  {
  }

  /** A thread that does not leave the loop moves on while the caches do not grow. */
  lemma {:induction false} StaysLimited(g: Group, t: nat, h: Group)
    requires Limited(g) && h.threads == g.threads[t := At(h, t)] && t in h.threads && h.cacheBytes == g.cacheBytes
    requires h.main.nbytes <= g.main.nbytes && h.hot.nbytes <= g.hot.nbytes
    requires |h.main.entries| <= |g.main.entries| && |h.hot.entries| <= |g.hot.entries|
    requires t in g.threads && Answers(g, g.threads[t]) ==> Answers(h, h.threads[t])
    ensures Limited(h)
  {
    if g.cacheBytes > 0 && Bytes(h) > h.cacheBytes {
      var u :| u in g.threads && Answers(g, g.threads[u]);
      assert Answers(h, h.threads[u]);
    }
  }

  lemma {:induction false} LookLimited(g: Group, t: nat, h: Group)
    requires Inv(g) && Limited(g) && Next(g, Look(t), h)
    ensures Limited(h)
  {
    hide Inv, Sound, Knows, Limited;
    LookedSize(g.main, At(g, t).key);
    LookedSize(g.hot, At(g, t).key);
    StaysLimited(g, t, h);
  }

  lemma {:induction false} LookedSize(c: CacheState, key: string)
    ensures Looked(c, key).nbytes == c.nbytes && |Looked(c, key).entries| <= |c.entries|
  {
    if HasKey(c, key) {
      WithoutLength(c.entries, key);
    }
  }

  lemma {:induction false} WithoutLength(s: seq<Entry>, key: string)
    requires Has(s, key)
    ensures |Without(s, key)| == |s| - 1
  {
    if s[0].key != key {
      var k :| 0 <= k < |s| && s[k].key == key;
      assert s[1..][k - 1] == s[k];
      WithoutLength(s[1..], key);
    }
  }

  /** Whoever measures goes on unless the caches are within the limit, or somebody else answers. */
  lemma {:induction false} MeasureLimited(g: Group, t: nat, h: Group)
    requires Limited(g) && Next(g, Measure(t), h)
    ensures Limited(h)
  {
    if g.cacheBytes > 0 && Bytes(h) > h.cacheBytes {
      var u :| u in g.threads && Answers(g, g.threads[u]);
      assert Answers(h, h.threads[u]);
    }
  }

  lemma {:induction false} PutLimited(g: Group, t: nat, h: Group)
    requires Inv(g) && Next(g, Put(t), h)
    ensures Limited(h)
  {
    assert Knows(g, At(g, t));
    assert Answers(h, h.threads[t]);
  }

  lemma {:induction false} NextLimited(g: Group, step: Step, h: Group)
    requires Inv(g) && Limited(g) && Next(g, step, h)
    ensures Limited(h)
  {
    if step.Look? {
      LookLimited(g, step.t, h);
    } else if step.Measure? {
      MeasureLimited(g, step.t, h);
    } else if step.Put? {
      PutLimited(g, step.t, h);
    } else {
      hide Limited, Knows, Sound, Apart, OneFlight, Dropped;
      DropLess(g.main);
      DropLess(g.hot);
      StaysLimited(g, step.t, h);
    }
  }

  lemma {:induction false} RunLimited(run: seq<Group>, steps: seq<Step>, cacheBytes: int, i: nat)
    requires IsRun(run, steps, cacheBytes) && i < |run|
    ensures Inv(run[i]) && Limited(run[i]) && run[i].cacheBytes == cacheBytes
  {
    hide Inv, Limited, Next;
    CachesSound(run, steps, cacheBytes, i);
    if i == 0 {
      StartLimited(cacheBytes);
    } else {
      RunLimited(run, steps, cacheBytes, i - 1);
      assert Next(run[i - 1], steps[i - 1], run[i]);
      NextLimited(run[i - 1], steps[i - 1], run[i]);
    }
  }

  lemma {:induction false} StartLimited(cacheBytes: int)
    ensures Limited(Group(cacheBytes, EMPTY, EMPTY, map[]))
  {
  }

  /** Over every interleaving of any number of callers: when nobody is in the loop of `populateCache`, both
      caches together are within the limit; without a limit they are empty. */
  lemma {:induction false} LimitAtRest(run: seq<Group>, steps: seq<Step>, cacheBytes: int, i: nat)
    requires IsRun(run, steps, cacheBytes) && i < |run|
    ensures cacheBytes > 0 && (forall t :: t in run[i].threads ==> !Evicting(run[i].threads[t])) ==>
      Sum(run[i].main.entries) + Sum(run[i].hot.entries) <= cacheBytes
    ensures cacheBytes <= 0 ==> run[i].main.entries == [] && run[i].hot.entries == []
  {
    hide Sum;
    RunLimited(run, steps, cacheBytes, i);
  }

  // ---------------------------------------------------------------- an empty victim

  predicate Hits(g: Group, victim: Which) {
    if victim == Main then g.main.entries != [] else g.hot.entries != []
  }

  /** What a caller measured of the main cache was a number of bytes. */
  ghost predicate Measured(g: Group) {
    forall t :: t in g.threads && g.threads[t].HotBytes? ==> g.threads[t].main >= 0
  }

  lemma {:induction false} NextMeasured(g: Group, step: Step, h: Group)
    requires Sound(g.main) && Measured(g) && Next(g, step, h)
    ensures Measured(h)
  {
    hide HasKey, Looked, Added, Dropped;
    BytesMeanEntries(g.main);
  }

  lemma {:induction false} RunMeasured(run: seq<Group>, steps: seq<Step>, cacheBytes: int, i: nat)
    requires IsRun(run, steps, cacheBytes) && i < |run|
    ensures Inv(run[i]) && Measured(run[i]) && run[i].cacheBytes == cacheBytes
  {
    CachesSound(run, steps, cacheBytes, i);
    if i > 0 {
      RunMeasured(run, steps, cacheBytes, i - 1);
      hide Next, Measured, Sound, Apart, OneFlight, Knows;
      assert Next(run[i - 1], steps[i - 1], run[i]);
      NextMeasured(run[i - 1], steps[i - 1], run[i]);
    }
  }

  /** A caller picks a victim that has nothing to evict exactly if the hot cache is at most an eighth of what
      it measured of the main cache, and the main cache is empty; it was not when it was measured. */
  lemma {:induction false} EmptyVictim(run: seq<Group>, steps: seq<Step>, cacheBytes: int, i: nat, t: nat)
    requires IsRun(run, steps, cacheBytes) && i < |steps| && cacheBytes > 0
    requires steps[i] == Measure(t) && At(run[i + 1], t).Evict?
    ensures At(run[i], t).HotBytes?
    ensures var g, m := run[i], At(run[i], t).main;
      && (!Hits(g, At(run[i + 1], t).victim) <==> g.hot.nbytes <= m / 8 && g.main.entries == [])
      && (!Hits(g, At(run[i + 1], t).victim) ==> At(run[i + 1], t).victim == Main && m > 0)
  {
    RunMeasured(run, steps, cacheBytes, i);
    assert Next(run[i], steps[i], run[i + 1]);
    BytesMeanEntries(run[i].main);
    BytesMeanEntries(run[i].hot);
  }

  /** The caller's measurement, or its choice, still holds. */
  predicate Fresh(g: Group, l: Local) {
    && (l.HotBytes? ==> l.main <= g.main.nbytes)
    && (l.Evict? ==> Hits(g, l.victim))
  }

  lemma {:induction false} LookedEntries(c: CacheState, key: string)
    ensures c.entries != [] ==> Looked(c, key).entries != []
    ensures Looked(c, key).nbytes == c.nbytes
  {
  }

  lemma {:induction false} FreshLook(g: Group, t: nat, l: Local, h: Group)
    requires Next(g, Look(t), h) && Fresh(g, l)
    ensures Fresh(h, l)
  {
    hide HasKey;
    LookedEntries(g.main, At(g, t).key);
    LookedEntries(g.hot, At(g, t).key);
  }

  lemma {:induction false} FreshMeasure(g: Group, t: nat, h: Group)
    requires Inv(g) && Measured(g) && g.cacheBytes > 0 && Next(g, Measure(t), h) && Fresh(g, At(g, t))
    ensures Fresh(h, At(h, t))
  {
    BytesMeanEntries(g.main);
    BytesMeanEntries(g.hot);
  }

  lemma {:induction false} FreshStep(g: Group, step: Step, h: Group, t: nat)
    requires Inv(g) && Measured(g) && g.cacheBytes > 0 && Next(g, step, h) && !step.Drop? && Fresh(g, At(g, t))
    ensures Fresh(h, At(h, t))
  {
    hide Inv, Measured, HasKey;
    if step == Measure(t) {
      FreshMeasure(g, t, h);
    } else if step.Look? {
      FreshLook(g, step.t, At(g, t), h);
    }
  }

  /** If nobody has evicted since a caller measured the main cache, then the caller's own eviction evicts
      something. */
  lemma {:induction false} UndisturbedEvicts(run: seq<Group>, steps: seq<Step>, cacheBytes: int, j: nat, i: nat, t: nat)
    requires IsRun(run, steps, cacheBytes) && cacheBytes > 0 && j < i < |run|
    requires steps[j] == Measure(t) && At(run[j], t).MainBytes?
    requires forall k :: j < k < i ==> !steps[k].Drop?
    ensures Fresh(run[i], At(run[i], t))
    decreases i
  {
    assert Next(run[i - 1], steps[i - 1], run[i]);
    RunMeasured(run, steps, cacheBytes, i - 1);
    if j < i - 1 {
      hide Next, Inv, Measured, Fresh;
      UndisturbedEvicts(run, steps, cacheBytes, j, i - 1, t);
      FreshStep(run[i - 1], steps[i - 1], run[i], t);
    }
  }

  lemma {:induction false} Extend(run: seq<Group>, steps: seq<Step>, cacheBytes: int, step: Step, h: Group)
    requires IsRun(run, steps, cacheBytes) && Next(run[|run| - 1], step, h)
    ensures IsRun(run + [h], steps + [step], cacheBytes)
  {
    hide Next;
    var r, st := run + [h], steps + [step];
    forall i | 0 <= i < |st| ensures Next(r[i], st[i], r[i + 1]) {
      assert i < |steps| ==> Next(run[i], steps[i], run[i + 1]);
    }
  }

  /** `g` after `n` lookups in each cache that found nothing. */
  function Missed(g: Group, m: nat, n: nat): Group {
    g.(main := g.main.(nget := g.main.nget + m), hot := g.hot.(nget := g.hot.nget + n))
  }

  /** Where caller `t` is on its way to adding what it fetched itself: its place after `n` steps. */
  function Loading(g: Group, t: nat, key: string, value: seq<bv8>, n: nat): Group {
    if n == 0 then g
    else if n == 1 then Go(g, t, GetMain(key))
    else if n == 2 then Go(Missed(g, 1, 0), t, GetHot(key))
    else if n == 3 then Go(Missed(g, 1, 1), t, Load(key))
    else if n == 4 then Go(Missed(g, 1, 1), t, FnMain(key))
    else if n == 5 then Go(Missed(g, 2, 1), t, FnHot(key))
    else if n == 6 then Go(Missed(g, 2, 2), t, Fetch(key))
    else Go(Missed(g, 2, 2), t, Add(key, value, Main))
  }

  function LoadingStep(t: nat, key: string, value: seq<bv8>, n: nat): Step {
    if n == 0 then Call(t, key) else if n == 3 then Fly(t) else if n == 6 then Locally(t, value) else Look(t)
  }

  predicate MayLoad(g: Group, t: nat, key: string) {
    && At(g, t).Idle? && g.cacheBytes > 0 && !HasKey(g.main, key) && !HasKey(g.hot, key)
    && forall u :: u in g.threads && InFlight(g.threads[u]) ==> g.threads[u].key != key
  }

  lemma {:induction false} LoadingNext(g: Group, t: nat, key: string, value: seq<bv8>, n: nat)
    requires MayLoad(g, t, key) && n < 7
    ensures Next(Loading(g, t, key, value, n), LoadingStep(t, key, value, n), Loading(g, t, key, value, n + 1))
  {
    var l := At(Loading(g, t, key, value, n + 1), t);
    assert g.threads[t := At(Loading(g, t, key, value, n), t)][t := l] == g.threads[t := l];
  }

  lemma {:induction false} LoadRun(run: seq<Group>, steps: seq<Step>, cacheBytes: int, t: nat, key: string,
                                   value: seq<bv8>, n: nat) returns (r: seq<Group>, st: seq<Step>)
    requires IsRun(run, steps, cacheBytes) && MayLoad(run[|run| - 1], t, key) && n <= 7
    ensures IsRun(r, st, cacheBytes) && r[|r| - 1] == Loading(run[|run| - 1], t, key, value, n)
  {
    hide Next, MayLoad, Loading;
    var g := run[|run| - 1];
    if n == 0 {
      r, st := run, steps;
      LoadingNone(g, t, key, value);
    } else {
      r, st := LoadRun(run, steps, cacheBytes, t, key, value, n - 1);
      LoadingNext(g, t, key, value, n - 1);
      var h := Loading(g, t, key, value, n);
      Extend(r, st, cacheBytes, LoadingStep(t, key, value, n - 1), h);
      r, st := r + [h], st + [LoadingStep(t, key, value, n - 1)];
    }
  }

  lemma {:induction false} LoadingNone(g: Group, t: nat, key: string, value: seq<bv8>)
    ensures Loading(g, t, key, value, 0) == g
  {
  }

  lemma {:induction false} OneStep(run: seq<Group>, steps: seq<Step>, cacheBytes: int, step: Step, h: Group)
    returns (r: seq<Group>, st: seq<Step>)
    requires IsRun(run, steps, cacheBytes) && Next(run[|run| - 1], step, h)
    ensures IsRun(r, st, cacheBytes) && |r| == |run| + 1 && r[|run|] == h && st == steps + [step]
  {
    hide Next;
    Extend(run, steps, cacheBytes, step, h);
    r, st := run + [h], steps + [step];
  }

  const LIMIT: int := 10

  const SMALL: Entry := Entry("a", [])

  const LARGE: Entry := Entry("b", seq(19, _ => 0))

  /** Caller 2 and caller 3 at these places, with these entries in the main cache. */
  function Pair(entries: seq<Entry>, nbytes: int, nevict: nat, two: Local, three: Local): Group {
    Group(LIMIT, CacheState(entries, nbytes, 4, 0, nevict), CacheState([], 0, 4, 0, 0), map[2 := two, 3 := three])
  }

  /** Both have fetched a value. */
  lemma {:induction false} BothFetched() returns (run: seq<Group>, steps: seq<Step>)
    ensures IsRun(run, steps, LIMIT)
    ensures run[|run| - 1] == Pair([], 0, 0, Add("a", [], Main), Add("b", LARGE.value, Main))
  {
    var g := Group(LIMIT, EMPTY, EMPTY, map[]);
    run, steps := LoadRun([g], [], LIMIT, 2, "a", [], 7);
    var h := Loading(g, 2, "a", [], 7);
    assert h.threads == map[2 := Add("a", [], Main)];
    run, steps := LoadRun(run, steps, LIMIT, 3, "b", LARGE.value, 7);
    assert h.threads[3 := Add("b", LARGE.value, Main)] == map[2 := Add("a", [], Main), 3 := Add("b", LARGE.value, Main)];
  }

  /** Both have added it and measured the main cache. */
  lemma {:induction false} BothMeasured() returns (run: seq<Group>, steps: seq<Step>)
    ensures IsRun(run, steps, LIMIT)
    ensures run[|run| - 1] == Pair([LARGE, SMALL], 21, 0, HotBytes("a", 21), HotBytes("b", 21))
  {
    hide IsRun;
    run, steps := BothFetched();
    var b := Add("b", LARGE.value, Main);
    run, steps := OneStep(run, steps, LIMIT, Put(2), Pair([SMALL], 1, 0, MainBytes("a"), b));
    assert !Has([SMALL], "b") && [LARGE] + [SMALL] == [LARGE, SMALL];
    WithoutAbsent([SMALL], "b");
    run, steps := OneStep(run, steps, LIMIT, Put(3), Pair([LARGE, SMALL], 21, 0, MainBytes("a"), MainBytes("b")));
    run, steps := OneStep(run, steps, LIMIT, Measure(2), Pair([LARGE, SMALL], 21, 0, HotBytes("a", 21), MainBytes("b")));
    run, steps := OneStep(run, steps, LIMIT, Measure(3), Pair([LARGE, SMALL], 21, 0, HotBytes("a", 21), HotBytes("b", 21)));
  }

  /** Caller 3 goes round once. */
  lemma {:induction false} RoundOfThree(run: seq<Group>, steps: seq<Step>, entries: seq<Entry>, nbytes: int, nevict: nat)
    returns (r: seq<Group>, st: seq<Step>)
    requires IsRun(run, steps, LIMIT) && entries != [] && nbytes > LIMIT
    requires run[|run| - 1] == Pair(entries, nbytes, nevict, HotBytes("a", 21), HotBytes("b", nbytes))
    ensures IsRun(r, st, LIMIT)
    ensures var n, left := |entries| - 1, nbytes - Size(entries[|entries| - 1]);
      r[|r| - 1] == Pair(entries[..n], left, nevict + 1, HotBytes("a", 21), HotBytes("b", left))
  {
    hide IsRun;
    var n, left := |entries| - 1, nbytes - Size(entries[|entries| - 1]);
    var a := HotBytes("a", 21);
    r, st := OneStep(run, steps, LIMIT, Measure(3), Pair(entries, nbytes, nevict, a, Evict("b", Main)));
    r, st := OneStep(r, st, LIMIT, Drop(3), Pair(entries[..n], left, nevict + 1, a, MainBytes("b")));
    r, st := OneStep(r, st, LIMIT, Measure(3), Pair(entries[..n], left, nevict + 1, a, HotBytes("b", left)));
  }

  /** A run from the empty group, with nobody adding after the two have measured, in which caller 2 picks the
      main cache as its victim although caller 3 has emptied it. */
  lemma {:induction false} EmptyVictimRun() returns (run: seq<Group>, steps: seq<Step>)
    ensures IsRun(run, steps, LIMIT) && |run| >= 2 && steps[|steps| - 1] == Measure(2)
    ensures var g := run[|run| - 1]; At(g, 2) == Evict("a", Main) && g.main.entries == [] && g.hot.entries == []
  {
    hide IsRun;
    run, steps := BothMeasured();
    run, steps := RoundOfThree(run, steps, [LARGE, SMALL], 21, 0);
    assert [LARGE, SMALL][..1] == [LARGE];
    run, steps := RoundOfThree(run, steps, [LARGE], 20, 1);
    assert [LARGE][..0] == [];
    run, steps := OneStep(run, steps, LIMIT, Measure(2), Pair([], 0, 2, Evict("a", Main), HotBytes("b", 0)));
    LastStep(run, steps);
  }

  lemma {:induction false} LastStep(run: seq<Group>, steps: seq<Step>)
    requires IsRun(run, steps, LIMIT)
    ensures |run| == |steps| + 1
  {
  }

  // ---------------------------------------------------------------- evicting on one's own

  class Cache {
    var entries: seq<Entry>
    var nbytes: int
    var nget: nat
    var nhit: nat
    var nevict: nat

    constructor ()
      ensures State() == EMPTY
    {
      entries, nbytes, nget, nhit, nevict := [], 0, 0, 0, 0;
    }

    function State(): CacheState
      reads this
    {
      CacheState(entries, nbytes, nget, nhit, nevict)
    }

    method Add(key: string, value: seq<bv8>)
      modifies this
      ensures State() == Added(old(State()), key, value)
    {
      entries := [Entry(key, value)] + Without(entries, key);
      nbytes := nbytes + |key| + |value|;
    }

    method Get(key: string) returns (value: seq<bv8>, ok: bool)
      modifies this
      ensures State() == Looked(old(State()), key) && ok == old(HasKey(State(), key))
      ensures ok ==> value == Find(old(entries), key).value
    {
      nget := nget + 1;
      if !Has(entries, key) {
        return [], false;
      }
      var e := Find(entries, key);
      entries := [e] + Without(entries, key);
      nhit := nhit + 1;
      return e.value, true;
    }

    /** Evicts the entry used longest ago, if there is one. */
    method RemoveOldest()
      modifies this
      ensures State() == Dropped(old(State()))
    {
      if entries == [] {
        return;
      }
      var last := entries[|entries| - 1];
      entries := entries[..|entries| - 1];
      nbytes, nevict := nbytes - Size(last), nevict + 1;
    }
  }

  /** Both caches have lost only their oldest entries, and no more than necessary: putting the last one
      evicted back exceeds the limit. The main cache loses something only if the hot one is at most an
      eighth of it by then, the hot one only if it was more. */
  ghost predicate Shrunk(m: CacheState, h: CacheState, m': CacheState, h': CacheState, cacheBytes: int) {
    && 0 <= m'.nbytes <= m.nbytes && 0 <= h'.nbytes <= h.nbytes
    && m'.entries <= m.entries && h'.entries <= h.entries
    && m'.nevict - m.nevict == |m.entries| - |m'.entries| && h'.nevict - h.nevict == |h.entries| - |h'.entries|
    && (m'.entries != m.entries ==> h'.nbytes <= m.nbytes / 8)
    && (h'.entries != h.entries ==> h.nbytes > m'.nbytes / 8)
    && (m' != m || h' != h ==>
          || (|m'.entries| < |m.entries| && m'.nbytes + h'.nbytes + Size(m.entries[|m'.entries|]) > cacheBytes)
          || (|h'.entries| < |h.entries| && m'.nbytes + h'.nbytes + Size(h.entries[|h'.entries|]) > cacheBytes))
  }

  /** And they are within the limit, untouched if they were before. */
  ghost predicate Evicted(m: CacheState, h: CacheState, m': CacheState, h': CacheState, cacheBytes: int) {
    && Shrunk(m, h, m', h', cacheBytes) && m'.nbytes + h'.nbytes <= cacheBytes
    && (m.nbytes + h.nbytes <= cacheBytes ==> m' == m && h' == h)
  }

  /** `populateCache` while nobody else uses the caches, for a key whose old entry, if any, has no bytes: the
      new entry goes in front of its cache and then the oldest entries of both are evicted. */
  method PopulateCache(main: Cache, hot: Cache, cacheBytes: int, key: string, value: seq<bv8>, which: Which)
    requires main != hot && Sound(main.State()) && Sound(hot.State())
    requires
      var c := if which == Main then main.State() else hot.State();
      HasKey(c, key) ==> Size(Find(c.entries, key)) == 0
    modifies main, hot
    ensures Sound(main.State()) && Sound(hot.State())
    ensures cacheBytes <= 0 ==> main.State() == old(main.State()) && hot.State() == old(hot.State())
    ensures cacheBytes > 0 ==>
      Evicted(if which == Main then Added(old(main.State()), key, value) else old(main.State()),
              if which == Hot then Added(old(hot.State()), key, value) else old(hot.State()),
              main.State(), hot.State(), cacheBytes)
  {
    if cacheBytes <= 0 {
      return;
    }
    hide Evicted, Added;
    if which == Main {
      AddSound(main.State(), key, value);
      main.Add(key, value);
    } else {
      AddSound(hot.State(), key, value);
      hot.Add(key, value);
    }
    EvictAll(main, hot, cacheBytes);
  }

  lemma {:induction false} DroppedIs(c: CacheState)
    requires Sound(c) && c.entries != []
    ensures var d, n := Dropped(c), |c.entries| - 1;
      && d.entries == c.entries[..n] && d.nbytes == c.nbytes - Size(c.entries[n]) && d.nevict == c.nevict + 1
      && Sound(d) && d.nbytes <= c.nbytes
  {
    DropSound(c);
  }

  /** The loop of `populateCache`; every round evicts an entry. */
  method EvictAll(main: Cache, hot: Cache, cacheBytes: int)
    requires main != hot && Sound(main.State()) && Sound(hot.State()) && cacheBytes > 0
    modifies main, hot
    ensures Sound(main.State()) && Sound(hot.State())
    ensures Evicted(old(main.State()), old(hot.State()), main.State(), hot.State(), cacheBytes)
  {
    ghost var m, h := main.State(), hot.State();
    BytesMeanEntries(m);
    BytesMeanEntries(h);
    while main.nbytes + hot.nbytes > cacheBytes
      invariant Sound(main.State()) && Sound(hot.State())
      invariant m.nbytes + h.nbytes <= cacheBytes ==> main.State() == m && hot.State() == h
      invariant Shrunk(m, h, main.State(), hot.State(), cacheBytes)
      decreases |main.entries| + |hot.entries|
    {
      hide Sound, Dropped;
      BytesMeanEntries(main.State());
      BytesMeanEntries(hot.State());
      var victim := main;
      if hot.nbytes > main.nbytes / 8 {
        victim := hot;
      }
      DroppedIs(victim.State());
      victim.RemoveOldest();
    }
  }
}
