/** libevent's arc4random: the RC4 state and the unbiased draw below a bound.

    `unsigned char` and 32-bit arithmetic wrap. The draws that `arc4random_uniform` rejects from come as
    a sequence, since nothing promises that a good one ever comes. */
module Arc4Random {
  import opened Common
  import opened Modular

  // ---------------------------------------------------------------- the cipher state

  const BYTE: nat := 256

  function Byte(x: int): nat {
    x % BYTE
  }

  lemma {:induction false} ByteRange(x: int)
    ensures Byte(x) < BYTE
  {
  }

  lemma {:induction false} ByteSame(x: nat)
    requires x < BYTE
    ensures Byte(x) == x
  {
  }

  lemma {:induction false} ByteNext(x: int)
    ensures Byte(Byte(x) + 1) == Byte(x + 1)
  {
  }

  function Identity(): seq<nat> {
    seq(BYTE, n => n)
  }

  function Swapped(s: seq<nat>, i: nat, j: nat): seq<nat>
    requires i < |s| && j < |s|
  {
    s[i := s[j]][j := s[i]]
  }

  lemma {:induction false} SwapPermutes(s: seq<nat>, i: nat, j: nat)
    requires i < |s| && j < |s|
    ensures multiset(Swapped(s, i, j)) == multiset(s)
  {
  }

  /** Every value is there exactly once. */
  ghost predicate Permutation(s: seq<nat>) {
    |s| == BYTE && multiset(s) == multiset(Identity())
  }

  lemma {:induction false} PermutationRange(s: seq<nat>)
    requires Permutation(s)
    ensures forall k :: 0 <= k < |s| ==> s[k] < BYTE
  {
    forall k | 0 <= k < |s| ensures s[k] < BYTE {
      assert s[k] in multiset(s);
      assert s[k] in Identity();
    }
  }

  lemma {:induction false} PermutationSwaps(s: seq<nat>)
    requires Permutation(s)
    ensures |s| == BYTE && forall t: seq<nat> :: |t| == BYTE && multiset(t) == multiset(s) ==> Permutation(t)
  {
  }

  /** The state of the generator: the table and its two indices. */
  datatype Cipher = Cipher(s: seq<nat>, i: nat, j: nat)

  ghost predicate Good(c: Cipher) {
    Permutation(c.s) && c.i < BYTE && c.j < BYTE
  }

  /** The two indices move and their entries change places. */
  function Advance(c: Cipher, add: nat): Cipher
    requires |c.s| == BYTE
  {
    var i := Byte(c.i + 1);
    var j := Byte(c.j + c.s[i] + add);
    Cipher(Swapped(c.s, i, j), i, j)
  }

  /** The entry at the sum of the two that were swapped. */
  function Output(c: Cipher): nat
    requires |c.s| == BYTE && c.i < BYTE && c.j < BYTE
  {
    c.s[Byte(c.s[c.i] + c.s[c.j])]
  }

  /** `n` rounds of mixing in data, used over and over. */
  function Mix(c: Cipher, dat: seq<nat>, n: nat): (r: Cipher)
    requires |c.s| == BYTE && dat != []
    ensures |r.s| == BYTE
  {
    if n == 0 then c else Advance(Mix(c, dat, n - 1), dat[(n - 1) % |dat|])
  }

  lemma {:induction false} GoodSize(c: Cipher)
    requires Good(c)
    ensures |c.s| == BYTE
  {
  }

  lemma {:induction false} AdvanceGood(c: Cipher, add: nat)
    requires Good(c)
    ensures Good(Advance(c, add)) && Advance(c, add).i == Byte(c.i + 1)
  {
    hide Permutation;
    PermutationSwaps(c.s);
    var d := Advance(c, add);
    SwapPermutes(c.s, d.i, d.j);
  }

  /** Mixing in any data keeps the table a permutation. */
  lemma {:induction false} MixGood(c: Cipher, dat: seq<nat>, n: nat)
    requires Good(c) && dat != []
    ensures Good(Mix(c, dat, n)) && Mix(c, dat, n).i == Byte(c.i + n)
  {
    hide Byte, Permutation, Advance;
    GoodSize(c);
    if n == 0 {
      ByteSame(c.i);
    } else {
      MixGood(c, dat, n - 1);
      AdvanceGood(Mix(c, dat, n - 1), dat[(n - 1) % |dat|]);
      ByteNext(c.i + n - 1);
    }
  }

  lemma {:induction false} OutputByte(c: Cipher)
    requires Good(c)
    ensures Output(c) < BYTE
  {
    PermutationRange(c.s);
  }

  class Arc4 {
    var i: nat
    var j: nat
    var s: array<nat>

    function State(): Cipher
      reads this, s
    {
      Cipher(s[..], i, j)
    }

    ghost predicate Valid()
      reads this, s
    {
      s.Length == BYTE && Good(State())
    }

    /** `arc4_init`. */
    constructor ()
      ensures Valid() && State() == Cipher(Identity(), 0, 0) && fresh(s)
    {
      s := new nat[BYTE](n => n);
      i, j := 0, 0;
      new;
      assert s[..] == Identity();
    }

    /** The part that mixing in and drawing have in common. */
    method Step(add: nat) returns (si: nat, sj: nat)
      requires Valid()
      modifies this`i, this`j, s
      ensures Valid() && s == old(s) && State() == Advance(old(State()), add) && si == s[j] && sj == s[i]
    {
      hide Permutation, Byte;
      AdvanceGood(State(), add);
      ByteRange(i + 1);
      ByteRange(j + s[Byte(i + 1)] + add);
      i := Byte(i + 1);
      si := s[i];
      j := Byte(j + si + add);
      sj := s[j];
      s[i] := sj;
      s[j] := si;
      assert s[..] == Swapped(old(s[..]), i, j);
    }

    /** `arc4_addrandom`. */
    method AddRandom(dat: seq<nat>)
      requires Valid() && dat != []
      modifies this`i, this`j, s
      ensures Valid() && s == old(s)
      ensures var c := Mix(old(State()).(i := Byte(old(i) - 1)), dat, BYTE); State() == c.(j := c.i)
    {
      hide Permutation, Advance;
      ByteRange(i - 1);
      i := Byte(i - 1);
      ghost var c := State();
      for n := 0 to BYTE
        invariant Valid() && s == old(s) && State() == Mix(c, dat, n)
      {
        var si, sj := Step(dat[n % |dat|]);
      }
      j := i;
    }

    /** `arc4_getbyte`. */
    method GetByte() returns (b: nat)
      requires Valid()
      modifies this`i, this`j, s
      ensures Valid() && s == old(s) && State() == Advance(old(State()), 0) && b == Output(State()) < BYTE
    {
      var si, sj := Step(0);
      OutputByte(State());
      return s[Byte(si + sj)];
    }

    /** `arc4_getword`: four bytes, the first one highest. */
    method GetWord() returns (w: nat)
      requires Valid()
      modifies this`i, this`j, s
      ensures Valid() && s == old(s) && w < WORD
      ensures var a := Advance(old(State()), 0);
        var b := Advance(a, 0);
        var c := Advance(b, 0);
        && State() == Advance(c, 0)
        && w == Output(a) * 0x100_0000 + Output(b) * 0x1_0000 + Output(c) * 0x100 + Output(State())
    {
      hide Permutation, Advance, Output;
      var a := GetByte();
      var b := GetByte();
      var c := GetByte();
      var d := GetByte();
      return a * 0x100_0000 + b * 0x1_0000 + c * 0x100 + d;
    }
  }

  // ---------------------------------------------------------------- no modulo bias

  const WORD: nat := 0x1_0000_0000

  function Word(x: int): nat {
    x % WORD
  }

  /** `min` as it is computed without 64-bit arithmetic. */
  function Min(bound: nat): nat
    requires 2 <= bound < WORD
  {
    if bound > 0x8000_0000 then Word(1 + (WORD - 1 - bound))
    else Word(Word(0xffff_ffff - Word(bound * 2)) + 1) % bound
  }

  lemma {:induction false} WordSame(x: int)
    requires 0 <= x < WORD
    ensures Word(x) == x
  {
  }

  /** It is the remainder of the number of words, also where twice the bound does not fit a word. */
  lemma {:induction false} MinIs(bound: nat)
    requires 2 <= bound < WORD
    ensures Min(bound) == WORD % bound && Min(bound) < 0x8000_0000
  {
    hide Word;
    SubMod(WORD, bound);
    if bound > 0x8000_0000 {
      WordSame(WORD - bound);
      SmallMod(WORD - bound, bound);
    } else if bound == 0x8000_0000 {
      WordZero();
      WordSame(0xffff_ffff);
    } else {
      WordSame(bound * 2);
      WordSame(0xffff_ffff - bound * 2);
      WordSame(WORD - bound * 2);
      SubMod(WORD - bound, bound);
    }
  }

  lemma {:induction false} WordZero()
    ensures Word(WORD) == 0
  {
  }

  /** How many of the words from `lo` up to `hi` leave remainder `x`. */
  function Count(lo: nat, hi: nat, bound: nat, x: nat): nat
    requires lo <= hi && bound > 0
    decreases hi
  {
    if lo == hi then 0 else Count(lo, hi - 1, bound, x) + if Slot(hi - 1, bound) == x then 1 else 0
  }

  /** One in any `bound` consecutive words. */
  lemma {:induction false} CountLap(lo: nat, bound: nat, x: nat, d: nat, n: nat)
    requires x < bound && d < bound && SlotAt(lo, d, bound) == x && n <= bound
    ensures Count(lo, lo + n, bound, x) == if d < n then 1 else 0
    decreases n
  {
    if n > 0 {
      CountLap(lo, bound, x, d, n - 1);
      SlotAtInjective(lo, d, n - 1, bound);
    }
  }

  lemma {:induction false} CountSplit(lo: nat, mid: nat, hi: nat, bound: nat, x: nat)
    requires lo <= mid <= hi && bound > 0
    ensures Count(lo, hi, bound, x) == Count(lo, mid, bound, x) + Count(mid, hi, bound, x)
    decreases hi
  {
    if mid < hi {
      CountSplit(lo, mid, hi - 1, bound, x);
    }
  }

  lemma {:induction false} OneMore(laps: nat, bound: nat)
    ensures (laps + 1) * bound == laps * bound + bound
  {
  }

  lemma {:induction false} CountLaps(lo: nat, laps: nat, bound: nat, x: nat, hi: nat)
    requires x < bound && hi == lo + laps * bound
    ensures Count(lo, hi, bound, x) == laps
    decreases laps
  {
    if laps > 0 {
      hide Count;
      OneMore(laps - 1, bound);
      var mid := hi - bound;
      CountLaps(lo, laps - 1, bound, x, mid);
      var d := SlotAtOnto(mid, x, bound);
      CountLap(mid, bound, x, d, bound);
      CountSplit(lo, mid, hi, bound, x);
    }
  }

  /** Every result below the bound comes from the same number of accepted words. */
  lemma {:induction false} Unbiased(bound: nat, x: nat)
    requires 2 <= bound < WORD && x < bound
    ensures Min(bound) <= WORD && Count(Min(bound), WORD, bound, x) == WORD / bound
  {
    MinIs(bound);
    var laps := WORD / bound;
    assert WORD == Min(bound) + laps * bound;
    CountLaps(Min(bound), laps, bound, x, WORD);
  }

  /** The first word at `k` that is not rejected. */
  predicate FirstAccepted(draws: seq<nat>, k: nat, min: nat) {
    k < |draws| && draws[k] >= min && forall j :: 0 <= j < k ==> draws[j] < min
  }

  /** `arc4random_uniform` on the given draws: the first one that is not rejected decides. */
  method Uniform(bound: nat, draws: seq<nat>) returns (r: Option<nat>)
    requires bound < WORD
    ensures bound < 2 ==> r == Some(0)
    ensures bound >= 2 && r.Some? ==> r.value < bound
    ensures bound >= 2 && r.Some? ==>
      exists k: nat :: FirstAccepted(draws, k, WORD % bound) && r.value == draws[k] % bound
    ensures bound >= 2 && r.None? ==> forall k :: 0 <= k < |draws| ==> draws[k] < WORD % bound
  {
    if bound < 2 {
      return Some(0);
    }
    var min := Min(bound);
    MinIs(bound);
    for k := 0 to |draws|
      invariant forall j :: 0 <= j < k ==> draws[j] < min
    {
      if draws[k] >= min {
        assert FirstAccepted(draws, k, WORD % bound);
        return Some(draws[k] % bound);
      }
    }
    return None;
  }
}
