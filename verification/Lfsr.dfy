/**
 The 24-bit shift register that hands out peer indices: it never repeats a
 value before it is back at its seed, where it stops the program.
 */
module Lfsr {
  import opened Options

  const POLYNOMIAL: bv32 := 0xd8_0000

  /** A peer index. */
  datatype Index = Index(bits: bv32)

  function Half(x: bv32): bv32 { x >> 1 }

  predicate Odd(x: bv32) { x & 1 == 1 }

  function Mix(a: bv32, b: bv32): bv32 { a ^ b }

  predicate In24(x: bv32) { x < 0x100_0000 }

  predicate TopBit(x: bv32) { x & 0x80_0000 != 0 }

  /** The register's successor. */
  function Step(x: bv32): bv32 {
    if Odd(x) then Mix(Half(x), POLYNOMIAL) else Half(x)
  }

  function Feedback(x: bv32): bv32 { (0 - (x & 1)) & POLYNOMIAL }

  /** The successor as the code computes it, with a mask in place of the branch. */
  function MaskedStep(x: bv32): bv32 {
    Mix(Half(x), Feedback(x))
  }

  lemma OddFeedback(x: bv32)
    requires Odd(x)
    ensures Feedback(x) == POLYNOMIAL
  {
  }

  lemma EvenFeedback(x: bv32)
    requires !Odd(x)
    ensures Feedback(x) == 0
  {
  }

  lemma MixZero(x: bv32)
    ensures Mix(x, 0) == x
  {
  }

  lemma MaskedStepIsStep(x: bv32)
    ensures MaskedStep(x) == Step(x)
  {
    if Odd(x) {
      OddFeedback(x);
    } else {
      EvenFeedback(x);
      MixZero(Half(x));
    }
  }

  /** The bit that falls out of the register comes back at its top. */
  lemma StepTopBit(x: bv32)
    requires In24(x)
    ensures In24(Step(x)) && (TopBit(Step(x)) <==> Odd(x))
  {
  }

  lemma MixInjective(a: bv32, b: bv32, c: bv32)
    requires Mix(a, c) == Mix(b, c)
    ensures a == b
  {
  }

  lemma StepInjective(x: bv32, y: bv32)
    requires In24(x) && In24(y) && Step(x) == Step(y)
    ensures x == y
  {
  }

  lemma StepNonzero(x: bv32)
    requires In24(x) && x != 0
    ensures Step(x) != 0
  {
  }

  /** The register after `k` steps. */
  function After(seed: bv32, k: nat): bv32
    decreases k
  {
    if k == 0 then seed else Step(After(seed, k - 1))
  }

  /** The register can be stepped `n` times without coming to the seed. */
  predicate Room(x: bv32, seed: bv32, n: nat) {
    forall k :: 1 <= k <= n ==> After(x, k) != seed
  }

  lemma {:induction false} AfterInRange(seed: bv32, k: nat)
    requires In24(seed) && seed != 0
    ensures In24(After(seed, k)) && After(seed, k) != 0
    decreases k
  {
    if k > 0 {
      AfterInRange(seed, k - 1);
      StepTopBit(After(seed, k - 1));
      StepNonzero(After(seed, k - 1));
    }
  }

  /** Two equal states, wound back, give a return to the seed. */
  lemma {:induction false} WindBack(seed: bv32, i: nat, j: nat)
    requires In24(seed) && seed != 0 && i <= j && After(seed, i) == After(seed, j)
    ensures After(seed, j - i) == seed
    decreases i
  {
    if i > 0 {
      AfterInRange(seed, i - 1);
      AfterInRange(seed, j - 1);
      StepInjective(After(seed, i - 1), After(seed, j - 1));
      WindBack(seed, i - 1, j - 1);
    }
  }

  /** The value handed out in state `x`. */
  function Value(x: bv32, mask: bv32): bv32 {
    Mix(x - 1, mask)
  }

  lemma ValueIn24(x: bv32, mask: bv32)
    requires In24(x) && x != 0 && In24(mask)
    ensures In24(Value(x, mask))
  {
  }

  lemma ValueInjective(x: bv32, y: bv32, mask: bv32)
    requires Value(x, mask) == Value(y, mask)
    ensures x == y
  {
    MixInjective(x - 1, y - 1, mask);
  }

  /** The values handed out so far. */
  ghost function Issued(seed: bv32, mask: bv32, n: nat): set<Index> {
    if n == 0 then {} else Issued(seed, mask, n - 1) + {Index(Value(After(seed, n - 1), mask))}
  }

  lemma {:induction false} IssuedOrigin(seed: bv32, mask: bv32, n: nat, v: Index) returns (i: nat)
    requires v in Issued(seed, mask, n)
    ensures i < n && v == Index(Value(After(seed, i), mask))
    decreases n
  {
    if v == Index(Value(After(seed, n - 1), mask)) {
      i := n - 1;
    } else {
      i := IssuedOrigin(seed, mask, n - 1, v);
    }
  }

  /** Until the register is back at its seed, the next value is new. */
  lemma NextIsNew(seed: bv32, mask: bv32, n: nat)
    requires In24(seed) && seed != 0
    requires forall k :: 1 <= k <= n ==> After(seed, k) != seed
    ensures Index(Value(After(seed, n), mask)) !in Issued(seed, mask, n)
  {
    if Index(Value(After(seed, n), mask)) in Issued(seed, mask, n) {
      var i := IssuedOrigin(seed, mask, n, Index(Value(After(seed, n), mask)));
      ValueInjective(After(seed, n), After(seed, i), mask);
      WindBack(seed, i, n);
    }
  }

  class IndexLfsr {
    const initial: bv32
    const mask: bv32
    var lfsr: bv32
    ghost var count: nat

    /** The values handed out since the register was seeded. */
    ghost function Spent(): set<Index>
      reads this
    {
      Issued(initial, mask, count)
    }

    ghost predicate Valid()
      reads this
    {
      && In24(initial) && initial != 0 && In24(mask)
      && lfsr == After(initial, count)
      && forall k :: 1 <= k <= count ==> After(initial, k) != initial
    }

    constructor (seed: bv32, mask: bv32)
      requires In24(seed) && seed != 0 && In24(mask) && mask != 0
      ensures Valid() && Spent() == {}
    {
      initial := seed;
      lfsr := seed;
      this.mask := mask;
      count := 0;
    }

    /** A 24-bit value never handed out before, or `None` for "Too many peers created". */
    method Next() returns (index: Option<Index>)
      requires Valid()
      modifies this
      ensures index.Some? ==>
        && Valid()
        && In24(index.value.bits)
        && index.value !in old(Spent())
        && Spent() == old(Spent()) + {index.value}
      ensures index.None? <==> Step(old(lfsr)) == initial
      ensures lfsr == Step(old(lfsr))
    {
      AfterInRange(initial, count);
      ValueIn24(lfsr, mask);
      NextIsNew(initial, mask, count);
      var before := lfsr;
      MaskedStepIsStep(lfsr);
      lfsr := MaskedStep(lfsr);
      if lfsr == initial {
        return None;
      }
      count := count + 1;
      index := Some(Index(Value(before, mask)));
    }
  }
}
