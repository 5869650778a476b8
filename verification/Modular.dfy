/** Remainders by a variable modulus, as ring buffers and wheels use them. */
module Modular {

  /** The slot of the `k`-th position counted round and round. */
  function Slot(k: nat, max: nat): nat
    requires max > 0
  {
    k % max
  }

  lemma {:induction false} SmallMod(x: nat, m: nat)
    requires x < m
    ensures x % m == x
  {
  }

  lemma {:induction false} AddMod(x: nat, m: nat)
    requires m > 0
    ensures (x + m) % m == x % m
  {
    var q, r := x / m, x % m;
    assert x == q * m + r;
    assert x + m == (q + 1) * m + r;
    ModOf(q + 1, r, x + m, m);
  }

  lemma {:induction false} ModOf(q: nat, r: nat, x: nat, m: nat)
    requires r < m && x == q * m + r
    ensures x % m == r
  {
    if q < x / m {
      assert x / m >= q + 1;
      MulMono(q + 1, x / m, m);
      assert false;
    } else if q > x / m {
      assert q >= x / m + 1;
      MulMono(x / m + 1, q, m);
      assert false;
    }
  }

  lemma {:induction false} MulMono(a: nat, b: nat, m: nat)
    requires a <= b
    ensures a * m <= b * m
  {
    assert b * m == a * m + (b - a) * m;
  }

  lemma {:induction false} SubMod(x: nat, m: nat)
    requires 0 < m <= x
    ensures (x - m) % m == x % m
  {
    AddMod(x - m, m);
  }

  /** Moving `n` slots on from a position, one lap at most. */
  lemma {:induction false} ModPlus(x: nat, n: nat, m: nat)
    requires m > 0 && n <= m
    ensures (x + n) % m == if x % m + n < m then x % m + n else x % m + n - m
  {
    var q, r := x / m, x % m;
    assert x == q * m + r;
    if r + n < m {
      ModOf(q, r + n, x + n, m);
    } else {
      assert x + n == (q + 1) * m + (r + n - m);
      ModOf(q + 1, r + n - m, x + n, m);
    }
  }

  /** Within one lap different counts are different slots. */
  lemma {:induction false} ModInjective(x: nat, y: nat, m: nat)
    requires m > 0 && x <= y < x + m
    ensures x % m == y % m <==> x == y
  {
    ModPlus(x, y - x, m);
  }

  /** The slot `d` further on from position `idx`. */
  function SlotAt(idx: nat, d: nat, max: nat): (r: nat)
    requires max > 0
    ensures r < max
  {
    Slot(idx + d, max)
  }

  lemma {:induction false} SlotAtInjective(idx: nat, c: nat, d: nat, max: nat)
    requires c < max && d < max
    ensures SlotAt(idx, c, max) == SlotAt(idx, d, max) <==> c == d
  {
    if c <= d { ModInjective(idx + c, idx + d, max); } else { ModInjective(idx + d, idx + c, max); }
  }

  lemma {:induction false} SlotAtOnto(idx: nat, c: nat, max: nat) returns (d: nat)
    requires c < max
    ensures d < max && SlotAt(idx, d, max) == c
  {
    var r := idx % max;
    d := if c >= r then c - r else c + max - r;
    ModPlus(idx, d, max);
  }

  lemma {:induction false} SlotAtWraps(idx: nat, d: nat, max: nat)
    requires max > 0 && d >= max
    ensures SlotAt(idx, d, max) == SlotAt(idx, d - max, max)
  {
    SubMod(idx + d, max);
  }
}
