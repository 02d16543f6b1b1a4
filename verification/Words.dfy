/**
 Single-bit operations on the 64-bit words of the anti-replay bitmap.

 A word is a bit-vector; bit `i` is tested, set and cleared through `1 << i`,
 written as `i` single-position shifts so that the bit index stays an integer.
 */
module Words {

  function Twice(w: bv64): bv64 { w << 1 }

  /** `1 << i`. */
  function Mask(i: nat): bv64 {
    if i == 0 then 1 else Twice(Mask(i - 1))
  }

  function And(w: bv64, m: bv64): bv64 { w & m }

  function Or(w: bv64, m: bv64): bv64 { w | m }

  function AndNot(w: bv64, m: bv64): bv64 { w & !m }

  predicate Bit(w: bv64, i: nat) { And(w, Mask(i)) != 0 }

  function WithBit(w: bv64, i: nat): bv64 { Or(w, Mask(i)) }

  function WithoutBit(w: bv64, i: nat): bv64 { AndNot(w, Mask(i)) }

  lemma TwiceKeepsDisjoint(a: bv64, b: bv64)
    requires And(a, b) == 0
    ensures And(Twice(a), Twice(b)) == 0
  {
  }

  lemma TwiceIsEven(a: bv64)
    ensures And(Twice(a), 1) == 0 && And(1, Twice(a)) == 0
  {
  }

  lemma TwiceNonzero(a: bv64)
    requires a != 0 && And(a, 0x8000_0000_0000_0000) == 0
    ensures Twice(a) != 0
  {
  }

  lemma {:induction false} MasksDisjoint(i: nat, j: nat)
    requires i != j
    ensures And(Mask(i), Mask(j)) == 0
  {
    if i == 0 {
      TwiceIsEven(Mask(j - 1));
    } else if j == 0 {
      TwiceIsEven(Mask(i - 1));
    } else {
      MasksDisjoint(i - 1, j - 1);
      TwiceKeepsDisjoint(Mask(i - 1), Mask(j - 1));
    }
  }

  lemma TopMask()
    ensures Mask(63) == 0x8000_0000_0000_0000
  {
    assert Mask(8) == 0x100;
    assert Mask(16) == 0x1_0000;
    assert Mask(24) == 0x100_0000;
    assert Mask(32) == 0x1_0000_0000;
    assert Mask(40) == 0x100_0000_0000;
    assert Mask(48) == 0x1_0000_0000_0000;
    assert Mask(56) == 0x100_0000_0000_0000;
  }

  lemma {:induction false} MaskNonzero(i: nat)
    requires i < 64
    ensures Mask(i) != 0
  {
    if i > 0 {
      MaskNonzero(i - 1);
      MasksDisjoint(i - 1, 63);
      TopMask();
      TwiceNonzero(Mask(i - 1));
    }
  }

  lemma OrDisjoint(w: bv64, m: bv64, k: bv64)
    requires And(m, k) == 0
    ensures And(Or(w, m), k) == And(w, k)
  {
  }

  lemma AndNotDisjoint(w: bv64, m: bv64, k: bv64)
    requires And(m, k) == 0
    ensures And(AndNot(w, m), k) == And(w, k)
  {
  }

  lemma OrSelf(w: bv64, m: bv64)
    ensures And(Or(w, m), m) == m
  {
  }

  lemma AndNotSelf(w: bv64, m: bv64)
    ensures And(AndNot(w, m), m) == 0
  {
  }

  lemma BitOfZero(i: nat)
    ensures !Bit(0, i)
  {
  }

  lemma BitSet(w: bv64, i: nat)
    requires i < 64
    ensures Bit(WithBit(w, i), i)
  {
    MaskNonzero(i);
    OrSelf(w, Mask(i));
  }

  lemma BitCleared(w: bv64, i: nat)
    ensures !Bit(WithoutBit(w, i), i)
  {
    AndNotSelf(w, Mask(i));
  }

  lemma OtherBitWhenSet(w: bv64, i: nat, j: nat)
    requires i != j
    ensures Bit(WithBit(w, i), j) <==> Bit(w, j)
  {
    MasksDisjoint(i, j);
    OrDisjoint(w, Mask(i), Mask(j));
  }

  lemma OtherBitWhenCleared(w: bv64, i: nat, j: nat)
    requires i != j
    ensures Bit(WithoutBit(w, i), j) <==> Bit(w, j)
  {
    MasksDisjoint(i, j);
    AndNotDisjoint(w, Mask(i), Mask(j));
  }

  /** Setting or clearing bit `i` changes bit `i` and no other. */
  lemma BitUpdate(w: bv64, i: nat, j: nat)
    requires i < 64
    ensures Bit(WithBit(w, i), j) <==> i == j || Bit(w, j)
    ensures Bit(WithoutBit(w, i), j) <==> i != j && Bit(w, j)
  {
    if i == j {
      BitSet(w, i);
      BitCleared(w, i);
    } else {
      OtherBitWhenSet(w, i, j);
      OtherBitWhenCleared(w, i, j);
    }
  }
}
