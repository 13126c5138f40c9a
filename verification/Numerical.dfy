/**
 The random numbers of 2018-fibers/src/numerical.c: two multiply-with-carry generators in the halves
 of a 64-bit seed.  The logarithm is a parameter, assumed negative on (0, 1).
 */
module Numerical {
  import opened Arithmetic
  import opened Common

  const TWO16 := 65536
  const TWO32 := 0x1_0000_0000
  const TWO64 := 0x1_0000_0000_0000_0000
  const A1 := 36969
  const A2 := 18000

  predicate Multiplier(a: int) {
    a == A1 || a == A2
  }

  /** The update of one half, in 32-bit arithmetic. */
  function Update(a: nat, x: nat): nat {
    (a * (x % TWO16) % TWO32 + x / TWO16) % TWO32
  }

  /** The modulus of the generator with multiplier a. */
  function Modulus(a: int): int {
    a * TWO16 - 1
  }

  function Iterate(a: nat, x: nat, n: nat): nat
    decreases n
  {
    if n == 0 then x else Iterate(a, Update(a, x), n - 1)
  }

  function Power(n: nat): nat {
    if n == 0 then 1 else TWO16 * Power(n - 1)
  }

  // ---------- one half ----------

  /** The update neither overflows 32 bits nor turns a non-zero half into zero, and 65536 times the
      new half is the old one plus a multiple of the modulus. */
  lemma UpdateExact(a: int, x: nat)
    requires Multiplier(a) && x < TWO32
    ensures Update(a, x) == a * (x % TWO16) + x / TWO16 < TWO32
    ensures x > 0 ==> Update(a, x) > 0
    ensures Update(a, x) * TWO16 == x + Modulus(a) * (x % TWO16)
    ensures Modulus(a) == 36969 * 65536 - 1 || Modulus(a) == 18000 * 65536 - 1
  {
    assert a * (x % TWO16) <= A1 * 65535;
  }

  lemma {:induction false} HalfStays(a: int, x: nat, n: nat)
    requires Multiplier(a) && x < TWO32
    ensures Iterate(a, x, n) < TWO32
    ensures x > 0 <==> Iterate(a, x, n) > 0
    decreases n
  {
    if n > 0 {
      UpdateExact(a, x);
      HalfStays(a, Update(a, x), n - 1);
    }
  }

  /** After n updates x_n * 65536^n is congruent to x_0. */
  lemma {:induction false} Congruent(a: int, x: nat, n: nat)
    requires Multiplier(a) && x < TWO32
    ensures (Iterate(a, x, n) * Power(n)) % Modulus(a) == x % Modulus(a)
    decreases n
  {
    if n > 0 {
      UpdateExact(a, x);
      hide Modulus, Update;
      var y := Update(a, x);
      Congruent(a, y, n - 1);
      var z := Iterate(a, y, n - 1) * Power(n - 1);
      assert Iterate(a, x, n) * Power(n) == z * TWO16 by {
        Reassociate(Iterate(a, y, n - 1), Power(n - 1));
      }
      CongruenceStep(z, y, x, Modulus(a), x % TWO16);
    }
  }

  lemma Reassociate(i: int, p: int)
    ensures i * (TWO16 * p) == i * p * TWO16
  {
  }

  lemma CongruenceStep(z: int, y: int, x: int, m: int, lo: int)
    requires m > 0 && z % m == y % m && y * TWO16 == x + m * lo
    ensures (z * TWO16) % m == x % m
  {
    assert z == m * (z / m) + z % m && y == m * (y / m) + y % m;
    ScaledDifference(z, y, m, z / m - y / m);
    ModShift(y * TWO16, (z / m - y / m) * TWO16, m);
    ModShift(x, lo, m);
  }

  lemma ScaledDifference(z: int, y: int, m: int, q: int)
    requires z - y == m * q
    ensures z * TWO16 == y * TWO16 + m * (q * TWO16)
  {
  }

  /** Up to the modulus different halves stay different for ever: the sequences never merge. */
  lemma {:induction false} NeverMerge(a: int, x: nat, y: nat, n: nat)
    requires Multiplier(a) && x <= Modulus(a) && y <= Modulus(a) && x != y
    ensures Iterate(a, x, n) != Iterate(a, y, n)
    decreases n
  {
    if n > 0 {
      hide Update, Modulus;
      if x < Modulus(a) && y < Modulus(a) {
        UpdateInjective(a, x, y);
      } else {
        ModulusIsFixed(a);
        UpdateBelow(a, if x < Modulus(a) then x else y);
      }
      NeverMerge(a, Update(a, x), Update(a, y), n - 1);
    }
  }

  /** The bound is sharp: the next number merges with 1 at once. */
  lemma MergeBeyond(a: int, n: nat)
    requires Multiplier(a) && n > 0
    ensures Modulus(a) + 1 < TWO32 && Iterate(a, Modulus(a) + 1, n) == Iterate(a, 1, n)
  {
    assert Update(a, Modulus(a) + 1) == Update(a, 1) by {
      var x := Modulus(a) + 1;
      UniqueMod(x, a, 0, TWO16);
      assert x % TWO16 == 0 && x / TWO16 == a;
    }
    hide Update;
  }

  lemma UpdateInjective(a: int, x: nat, y: nat)
    requires Multiplier(a) && x < Modulus(a) && y < Modulus(a) && x != y
    ensures Update(a, x) < Modulus(a) && Update(a, y) < Modulus(a) && Update(a, x) != Update(a, y)
  {
    UpdateExact(a, x);
    UpdateExact(a, y);
    UpdateBelow(a, x);
    UpdateBelow(a, y);
    var m := Modulus(a);
    assert m * (y % TWO16 - x % TWO16) == m * (y % TWO16) - m * (x % TWO16);
    MulBound(m, y % TWO16 - x % TWO16);
  }

  lemma UpdateBelow(a: int, x: nat)
    requires Multiplier(a) && x < Modulus(a)
    ensures Update(a, x) < Modulus(a)
  {
    UpdateExact(a, x);
  }

  /** The half equal to the modulus never changes. */
  lemma ModulusIsFixed(a: int)
    requires Multiplier(a)
    ensures Update(a, Modulus(a)) == Modulus(a)
  {
    UpdateExact(a, Modulus(a));
  }

  // ---------- the seed ----------

  function Low(seed: nat): nat {
    seed % TWO32
  }

  function High(seed: nat): nat {
    seed / TWO32
  }

  /** The seed after a call; a zero seed is first replaced by the system's `entropy`. */
  function NextSeed(seed: nat, entropy: nat): nat {
    var s := if seed == 0 then entropy else seed;
    Update(A1, Low(s)) + TWO32 * Update(A2, High(s))
  }

  /** The 32-bit number a seed stands for, and the result made of it. */
  function Word(seed: nat): nat {
    (Low(seed) * TWO16 % TWO32 + Low(seed) / TWO16 + High(seed)) % TWO32
  }

  const UNIT := 2328306435454494.0 / 10000000000000000000000000.0

  function Value(seed: nat): real {
    (Word(seed) as real + 1.0) * UNIT
  }

  predicate Below(s: seq<nat>, bound: nat) {
    forall k :: 0 <= k < |s| ==> s[k] < bound
  }

  function Seeds(seed: nat, entropies: seq<nat>): nat
    decreases |entropies|
  {
    if entropies == [] then seed else Seeds(NextSeed(seed, entropies[0]), entropies[1..])
  }

  lemma SplitSeed(lo: nat, hi: nat)
    requires lo < TWO32
    ensures Low(lo + TWO32 * hi) == lo && High(lo + TWO32 * hi) == hi
  {
    UniqueMod(lo + TWO32 * hi, hi, lo, TWO32);
  }

  lemma NextSeedHalves(seed: nat, entropy: nat)
    requires seed < TWO64 && entropy < TWO64
    ensures var s := if seed == 0 then entropy else seed;
      && NextSeed(seed, entropy) < TWO64
      && Low(NextSeed(seed, entropy)) == Update(A1, Low(s))
      && High(NextSeed(seed, entropy)) == Update(A2, High(s))
      && (s > 0 ==> NextSeed(seed, entropy) > 0)
  {
    var s := if seed == 0 then entropy else seed;
    assert s == TWO32 * High(s) + Low(s);
    UpdateExact(A1, Low(s));
    UpdateExact(A2, High(s));
    SplitSeed(Update(A1, Low(s)), Update(A2, High(s)));
  }

  /** A non-zero seed is never replaced again, and its halves run independently. */
  lemma {:induction false} HalvesIndependent(seed: nat, entropies: seq<nat>)
    requires 0 < seed < TWO64 && Below(entropies, TWO64)
    ensures var s := Seeds(seed, entropies);
      && 0 < s < TWO64
      && Low(s) == Iterate(A1, Low(seed), |entropies|)
      && High(s) == Iterate(A2, High(seed), |entropies|)
    decreases |entropies|
  {
    if entropies != [] {
      NextSeedHalves(seed, entropies[0]);
      HalvesIndependent(NextSeed(seed, entropies[0]), entropies[1..]);
    }
  }

  /** The result is strictly between 0 and 1 for every seed. */
  lemma ValueBounds(seed: nat)
    ensures 0.0 < Value(seed) < 1.0
  {
    var w := Word(seed) as real + 1.0;
    assert 1.0 <= w <= 4294967296.0;
    assert w * UNIT <= 4294967296.0 * UNIT;
  }

  /** It is the 32-bit number plus one over 2^32, but for less than 4.7e-10. */
  lemma ValueIsFraction(seed: nat)
    ensures var exact := (Word(seed) as real + 1.0) / 4294967296.0;
      exact - 0.00000000047 < Value(seed) < exact
  {
    hide Word;
    var w := Word(seed) as real + 1.0;
    assert 1.0 <= w <= 4294967296.0 by {
      WordBounds(seed);
    }
    FractionOf(w);
  }

  lemma WordBounds(seed: nat)
    ensures 0 <= Word(seed) < TWO32
  {
  }

  lemma FractionOf(w: real)
    requires 1.0 <= w <= 4294967296.0
    ensures w / 4294967296.0 - 0.00000000047 < w * UNIT < w / 4294967296.0
  {
  }

  /** Two seeds that differ in one half only stand for different numbers, whichever half it is. */
  lemma EachHalfShows(s: nat, t: nat)
    requires s < TWO64 && t < TWO64 && s != t && (Low(s) == Low(t) || High(s) == High(t))
    ensures Word(s) != Word(t)
  {
    assert s == TWO32 * High(s) + Low(s) && t == TWO32 * High(t) + Low(t);
    WordIs(s);
    WordIs(t);
    hide Word;
    if Low(s) == Low(t) {
      SumsDiffer(Rotated(Low(s)), High(s), High(t));
    } else {
      RotationInjective(Low(s), Low(t));
      SumsDiffer(High(s), Rotated(Low(s)), Rotated(Low(t)));
    }
  }

  lemma WordIs(seed: nat)
    ensures Word(seed) == (Rotated(Low(seed)) + High(seed)) % TWO32
  {
  }

  lemma SumsDiffer(a: nat, x: nat, y: nat)
    requires x < TWO32 && y < TWO32 && x != y
    ensures (a + x) % TWO32 != (a + y) % TWO32 && (x + a) % TWO32 != (y + a) % TWO32
  {
  }

  lemma HalvesOf(e: nat)
    requires e < TWO32
    ensures Low(e) == e && High(e) == 0
  {
  }

  /** Seeded by random(), whose result is below 2^31, the upper half is zero and stays zero, zero
      results of random() included: only one of the two generators runs. */
  lemma {:induction false} UpperHalfIdle(seed: nat, entropies: seq<nat>)
    requires seed < TWO32 && Below(entropies, TWO32)
    ensures Seeds(seed, entropies) < TWO32 && High(Seeds(seed, entropies)) == 0
    decreases |entropies|
  {
    HalvesOf(seed);
    if entropies != [] {
      var e := entropies[0];
      HalvesOf(e);
      NextSeedHalves(seed, e);
      assert Update(A2, 0) == 0;
      hide Update, NextSeed;
      assert Below(entropies[1..], TWO32);
      UpperHalfIdle(NextSeed(seed, e), entropies[1..]);
    } else {
      HalvesOf(Seeds(seed, entropies));
    }
  }

  /** The lower half runs on from the first seed. */
  lemma LowerHalfRuns(entropies: seq<nat>)
    requires entropies != [] && 0 < entropies[0] && Below(entropies, TWO32)
    ensures Low(Seeds(0, entropies)) == Iterate(A1, entropies[0], |entropies|)
  {
    hide NextSeed, Low, High;
    var e := entropies[0];
    assert Below(entropies[1..], TWO64);
    NextSeedHalves(0, e);
    HalvesIndependent(NextSeed(0, e), entropies[1..]);
    HalvesOf(e);
  }

  /** The largest seed random() hands out, plus one. */
  const RANDOM_BOUND := 0x8000_0000

  /** Two threads seeded differently by random() never draw the same number in the same step. */
  lemma StreamsDiffer(es: seq<nat>, fs: seq<nat>)
    requires |es| == |fs| > 0 && es[0] > 0 && fs[0] > 0 && es[0] != fs[0]
    requires Below(es, RANDOM_BOUND) && Below(fs, RANDOM_BOUND)
    ensures Value(Seeds(0, es)) != Value(Seeds(0, fs))
  {
    hide Seeds, Value, Iterate, Low, High;
    UpperHalfIdle(0, es);
    UpperHalfIdle(0, fs);
    LowerHalfRuns(es);
    LowerHalfRuns(fs);
    NeverMerge(A1, es[0], fs[0], |es|);
    HalfStays(A1, es[0], |es|);
    HalfStays(A1, fs[0], |fs|);
    ValuesDiffer(Seeds(0, es), Seeds(0, fs));
  }

  lemma ValuesDiffer(s: nat, t: nat)
    requires High(s) == High(t) == 0 && Low(s) != Low(t)
    ensures Value(s) != Value(t)
  {
    RotationInjective(Low(s), Low(t));
    assert Word(s) != Word(t);
  }

  function Rotated(x: nat): nat {
    (x * TWO16 % TWO32 + x / TWO16) % TWO32
  }

  lemma RotationInjective(x: nat, y: nat)
    requires x < TWO32 && y < TWO32 && x != y
    ensures Rotated(x) != Rotated(y)
  {
    hide Rotated;
    Rotation(x);
    Rotation(y);
    assert x == TWO16 * (x / TWO16) + x % TWO16;
    assert y == TWO16 * (y / TWO16) + y % TWO16;
  }

  /** The two 16-bit halves change places. */
  lemma Rotation(x: nat)
    requires x < TWO32
    ensures Rotated(x) / TWO16 == x % TWO16 && Rotated(x) % TWO16 == x / TWO16
  {
    var lo, hi := x % TWO16, x / TWO16;
    assert x == TWO16 * hi + lo;
    assert x * TWO16 == TWO32 * hi + lo * TWO16;
    UniqueMod(x * TWO16, hi, lo * TWO16, TWO32);
    assert Rotated(x) == lo * TWO16 + hi;
  }

  // ---------- the object ----------

  lemma NextHalves(lo: nat, hi: nat)
    requires lo < TWO32 && hi < TWO32
    ensures (A1 * (lo % TWO16) % TWO32 + lo / TWO16) % TWO32 == Update(A1, lo) < TWO32
    ensures (A2 * (hi % TWO16) % TWO32 + hi / TWO16) % TWO32 == Update(A2, hi) < TWO32
  {
  }

  lemma WordOf(lo: nat, hi: nat)
    requires lo < TWO32
    ensures Word(lo + TWO32 * hi) == (lo * TWO16 % TWO32 + lo / TWO16 + hi) % TWO32
  {
    SplitSeed(lo, hi);
  }

  class Generator {
    var masterSeed: nat

    method Random(entropy: nat) returns (r: real)
      requires masterSeed < TWO64 && entropy < TWO64
      modifies this
      ensures masterSeed == NextSeed(old(masterSeed), entropy) < TWO64
      ensures r == Value(masterSeed) && 0.0 < r < 1.0
    {
      hide Update, Word;
      if masterSeed == 0 {
        masterSeed := entropy;
      }
      var seed1, seed2 := masterSeed % TWO32, masterSeed / TWO32;
      NextHalves(seed1, seed2);
      seed1 := (A1 * (seed1 % TWO16) % TWO32 + seed1 / TWO16) % TWO32;
      seed2 := (A2 * (seed2 % TWO16) % TWO32 + seed2 / TWO16) % TWO32;
      masterSeed := seed1 + TWO32 * seed2;
      WordOf(seed1, seed2);
      r := (((seed1 * TWO16 % TWO32 + seed1 / TWO16 + seed2) % TWO32) as real + 1.0) * UNIT;
      ValueBounds(masterSeed);
    }

    /** An exponential draw; None is the exit on a negative mean. */
    method Expent(mean: real, entropy: nat, log: real -> real) returns (r: Option<real>)
      requires masterSeed < TWO64 && entropy < TWO64
      requires forall x :: 0.0 < x < 1.0 ==> log(x) < 0.0
      modifies this
      ensures r.None? <==> mean < 0.0
      ensures r.None? ==> masterSeed == old(masterSeed)
      ensures r.Some? ==> masterSeed == NextSeed(old(masterSeed), entropy) < TWO64
      ensures r.Some? ==> r.value == -mean * log(1.0 - Value(masterSeed)) >= 0.0 && (mean > 0.0 ==> r.value > 0.0)
    {
      if mean < 0.0 {
        return None;
      }
      var u := this.Random(entropy);
      var l := log(1.0 - u);
      ExponentialSign(mean, l);
      r := Some(-mean * l);
    }
  }

  lemma ExponentialSign(mean: real, l: real)
    requires mean >= 0.0 && l < 0.0
    ensures -mean * l >= 0.0 && (mean > 0.0 ==> -mean * l > 0.0)
  {
  }
}
