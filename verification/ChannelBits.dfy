/** The channel bitmap of 2018-fibers/src/model.h: one bit per channel in 32-bit words. */
module ChannelBits {
  const BITS := 32

  function Mask(k: nat): bv32
    requires k < BITS
  {
    1 << k
  }

  function And(a: bv32, b: bv32): bv32 {
    a & b
  }

  function Or(a: bv32, b: bv32): bv32 {
    a | b
  }

  function AndNot(a: bv32, b: bv32): bv32 {
    a & !b
  }

  predicate CheckBit(b: bv32, k: nat)
    requires k < BITS
  {
    And(b, Mask(k)) != 0
  }

  function SetBit(b: bv32, k: nat): bv32
    requires k < BITS
  {
    Or(b, Mask(k))
  }

  function ResetBit(b: bv32, k: nat): bv32
    requires k < BITS
  {
    AndNot(b, Mask(k))
  }

  predicate CheckChannel(words: seq<bv32>, i: nat)
    requires i / BITS < |words|
  {
    CheckBit(words[i / BITS], i % BITS)
  }

  function SetChannel(words: seq<bv32>, i: nat): seq<bv32>
    requires i / BITS < |words|
  {
    words[i / BITS := SetBit(words[i / BITS], i % BITS)]
  }

  function ResetChannel(words: seq<bv32>, i: nat): seq<bv32>
    requires i / BITS < |words|
  {
    words[i / BITS := ResetBit(words[i / BITS], i % BITS)]
  }

  lemma MaskNotZero(j: nat)
    requires j < BITS
    ensures Mask(j) != 0
  {
  }

  lemma MasksDisjoint(j: nat, k: nat)
    requires j < BITS && k < BITS && j != k
    ensures And(Mask(j), Mask(k)) == 0
  {
  }

  lemma SameMask(b: bv32, m: bv32)
    ensures And(Or(b, m), m) == m
    ensures And(AndNot(b, m), m) == 0
  {
  }

  lemma OtherSet(b: bv32, m: bv32, n: bv32)
    requires And(m, n) == 0
    ensures And(Or(b, m), n) == And(b, n)
  {
  }

  lemma OtherReset(b: bv32, m: bv32, n: bv32)
    requires And(m, n) == 0
    ensures And(AndNot(b, m), n) == And(b, n)
  {
  }

  lemma BitsExact(b: bv32, j: nat, k: nat)
    requires j < BITS && k < BITS
    ensures CheckBit(SetBit(b, j), k) <==> j == k || CheckBit(b, k)
    ensures CheckBit(ResetBit(b, j), k) <==> j != k && CheckBit(b, k)
  {
    hide Mask, And, Or, AndNot;
    if j == k {
      MaskNotZero(j);
      SameMask(b, Mask(j));
    } else {
      MasksDisjoint(j, k);
      OtherSet(b, Mask(j), Mask(k));
      OtherReset(b, Mask(j), Mask(k));
    }
  }

  lemma BitOfZero(k: nat)
    requires k < BITS
    ensures !CheckBit(0, k)
  {
  }

  /** Setting a channel's bit sets that channel and no other. */
  lemma SetIsExact(words: seq<bv32>, i: nat, j: nat)
    requires i / BITS < |words| && j / BITS < |words|
    ensures CheckChannel(SetChannel(words, i), j) <==> i == j || CheckChannel(words, j)
  {
    hide CheckBit, SetBit, ResetBit;
    BitsExact(words[i / BITS], i % BITS, j % BITS);
  }

  /** Resetting a channel's bit clears that channel and no other. */
  lemma ResetIsExact(words: seq<bv32>, i: nat, j: nat)
    requires i / BITS < |words| && j / BITS < |words|
    ensures CheckChannel(ResetChannel(words, i), j) <==> i != j && CheckChannel(words, j)
  {
    hide CheckBit, SetBit, ResetBit;
    BitsExact(words[i / BITS], i % BITS, j % BITS);
  }

  /** The channels below n whose bit is set. */
  ghost function BusyBelow(words: seq<bv32>, n: nat): (r: set<int>)
    requires n <= |words| * BITS
    ensures forall i :: i in r <==> 0 <= i < n && CheckChannel(words, i)
  {
    if n == 0 then {} else
      var r := BusyBelow(words, n - 1);
      if CheckChannel(words, n - 1) then r + {n - 1} else r
  }

  lemma BusyAfterSet(words: seq<bv32>, n: nat, i: nat)
    requires i < n <= |words| * BITS
    ensures BusyBelow(SetChannel(words, i), n) == BusyBelow(words, n) + {i}
  {
    hide CheckChannel;
    forall j ensures j in BusyBelow(SetChannel(words, i), n) <==> j in BusyBelow(words, n) + {i} {
      if 0 <= j < n {
        SetIsExact(words, i, j);
      }
    }
  }

  lemma BusyAfterReset(words: seq<bv32>, n: nat, i: nat)
    requires i < n <= |words| * BITS
    ensures BusyBelow(ResetChannel(words, i), n) == BusyBelow(words, n) - {i}
  {
    hide CheckChannel;
    forall j ensures j in BusyBelow(ResetChannel(words, i), n) <==> j in BusyBelow(words, n) - {i} {
      if 0 <= j < n {
        ResetIsExact(words, i, j);
      }
    }
  }

  lemma BusyOfZeros(words: seq<bv32>, n: nat)
    requires n <= |words| * BITS && forall k :: 0 <= k < |words| && k * BITS < n ==> words[k] == 0
    ensures BusyBelow(words, n) == {}
  {
    forall j: nat | j < n ensures !CheckChannel(words, j) {
      assert words[j / BITS] == 0;
      BitOfZero(j % BITS);
    }
  }
}
