/**
 Squaring in the field the shift register steps through: the bit of weight
 2^(23 - i) stands for the i-th power of one element, a step multiplies by it,
 and squaring doubles every power.
 */
module FieldSquares {
  import opened Lfsr

  /** The zeroth power. */
  const UNIT: bv32 := 0x80_0000

  // ---- Sums over the bits of a register ----

  function If(p: bool, a: bv32): bv32 { if p then a else 0 }

  function Pick(u: bv32, a: bv32): bv32 { If(Odd(u), a) }

  /** The sum of the terms picked by the bits of `u`, the lowest bit first. */
  function Total<T>(u: T, t: seq<T>, half: T -> T, pick: (T, T) -> T, add: (T, T) -> T, zero: T): T {
    if t == [] then zero else add(pick(u, t[0]), Total(half(u), t[1..], half, pick, add, zero))
  }

  ghost predicate Swaps<T(!new)>(add: (T, T) -> T) {
    forall a, b, c, d :: add(add(a, b), add(c, d)) == add(add(a, c), add(b, d))
  }

  ghost predicate Distributes<T(!new)>(add: (T, T) -> T, half: T -> T) {
    forall a, b :: half(add(a, b)) == add(half(a), half(b))
  }

  ghost predicate PicksEach<T(!new)>(add: (T, T) -> T, pick: (T, T) -> T) {
    forall a, b, c :: pick(add(a, b), c) == add(pick(a, c), pick(b, c))
  }

  lemma {:induction false} TotalAdds<T(!new)>(
      u: T, v: T, t: seq<T>, half: T -> T, pick: (T, T) -> T, add: (T, T) -> T, zero: T)
    requires add(zero, zero) == zero && Swaps(add) && Distributes(add, half) && PicksEach(add, pick)
    ensures Total(add(u, v), t, half, pick, add, zero) ==
      add(Total(u, t, half, pick, add, zero), Total(v, t, half, pick, add, zero))
    decreases |t|
  {
    if t != [] {
      TotalAdds(half(u), half(v), t[1..], half, pick, add, zero);
    }
  }

  function Sum(u: bv32, t: seq<bv32>): bv32 { Total(u, t, Half, Pick, Mix, 0) }

  lemma MixRegroup(a: bv32, b: bv32, c: bv32)
    ensures Mix(Mix(a, b), c) == Mix(a, Mix(b, c))
  {
  }

  lemma MixCommute(a: bv32, b: bv32)
    ensures Mix(a, b) == Mix(b, a)
  {
  }

  ghost predicate Regroups<T(!new)>(add: (T, T) -> T) {
    forall a, b, c {:trigger add(add(a, b), c)} :: add(add(a, b), c) == add(a, add(b, c))
  }

  ghost predicate Commutes<T(!new)>(add: (T, T) -> T) {
    forall a, b :: add(a, b) == add(b, a)
  }

  lemma SwapOf<T(!new)>(add: (T, T) -> T, a: T, b: T, c: T, d: T)
    requires Regroups(add) && Commutes(add)
    ensures add(add(a, b), add(c, d)) == add(add(a, c), add(b, d))
  {
    assert add(add(b, c), d) == add(b, add(c, d));
    assert add(add(c, b), d) == add(c, add(b, d));
    assert add(b, c) == add(c, b);
  }

  lemma MixRegroups()
    ensures Regroups(Mix)
  {
    forall a, b, c ensures Mix(Mix(a, b), c) == Mix(a, Mix(b, c)) { MixRegroup(a, b, c); }
  }

  lemma MixCommutes()
    ensures Commutes(Mix)
  {
    forall a, b ensures Mix(a, b) == Mix(b, a) { MixCommute(a, b); }
  }

  lemma MixSwap(a: bv32, b: bv32, c: bv32, d: bv32)
    ensures Mix(Mix(a, b), Mix(c, d)) == Mix(Mix(a, c), Mix(b, d))
  {
    MixRegroups();
    MixCommutes();
    SwapOf(Mix, a, b, c, d);
  }

  lemma ShiftXor(u: bv32, v: bv32)
    ensures (u ^ v) >> 1 == (u >> 1) ^ (v >> 1)
  {
  }

  lemma AndXor(u: bv32, v: bv32)
    ensures (u ^ v) & 1 == (u & 1) ^ (v & 1)
  {
  }

  lemma LowBit(u: bv32)
    ensures u & 1 == 0 || u & 1 == 1
  {
  }

  lemma OddMix(u: bv32, v: bv32)
    ensures Odd(Mix(u, v)) <==> Odd(u) != Odd(v)
  {
    AndXor(u, v);
    LowBit(u);
    LowBit(v);
  }

  lemma HalfMix(u: bv32, v: bv32)
    ensures Half(Mix(u, v)) == Mix(Half(u), Half(v)) && (Odd(Mix(u, v)) <==> Odd(u) != Odd(v))
  {
    ShiftXor(u, v);
    OddMix(u, v);
  }

  lemma MixSelf(a: bv32)
    ensures Mix(a, a) == 0 && Mix(0, a) == a
  {
  }

  lemma PickMix(u: bv32, v: bv32, a: bv32)
    ensures Pick(Mix(u, v), a) == Mix(Pick(u, a), Pick(v, a))
  {
    HalfMix(u, v);
    MixZero(a);
    MixSelf(a);
  }

  lemma MixSwaps()
    ensures Swaps(Mix)
  {
    forall a, b, c, d ensures Mix(Mix(a, b), Mix(c, d)) == Mix(Mix(a, c), Mix(b, d)) { MixSwap(a, b, c, d); }
  }

  lemma MixDistributes()
    ensures Distributes(Mix, Half)
  {
    forall a, b ensures Half(Mix(a, b)) == Mix(Half(a), Half(b)) { HalfMix(a, b); }
  }

  lemma MixPicks()
    ensures PicksEach(Mix, Pick)
  {
    forall a, b, c ensures Pick(Mix(a, b), c) == Mix(Pick(a, c), Pick(b, c)) { PickMix(a, b, c); }
  }

  lemma SumMix(u: bv32, v: bv32, t: seq<bv32>)
    ensures Sum(Mix(u, v), t) == Mix(Sum(u, t), Sum(v, t))
  {
    MixSelf(0);
    MixSwaps();
    MixDistributes();
    MixPicks();
    TotalAdds(u, v, t, Half, Pick, Mix, 0);
  }

  lemma SumStep(u: bv32, t: seq<bv32>)
    requires t != []
    ensures Sum(u, t) == Mix(Pick(u, t[0]), Sum(Half(u), t[1..]))
  {
  }

  // ---- Squaring ----

  function Twice(a: bv32): bv32 { Step(Step(a)) }

  lemma MixCancel(a: bv32, b: bv32, p: bv32)
    ensures Mix(Mix(a, p), Mix(b, p)) == Mix(a, b)
  {
    MixSwap(a, p, b, p);
    MixSelf(p);
    MixZero(Mix(a, b));
  }

  lemma MixLate(a: bv32, b: bv32, p: bv32)
    ensures Mix(Mix(a, p), b) == Mix(Mix(a, b), p)
  {
    MixRegroup(a, p, b);
    MixRegroup(a, b, p);
    MixCommute(p, b);
  }

  lemma StepNeither(u: bv32, v: bv32)
    requires !Odd(u) && !Odd(v)
    ensures Step(Mix(u, v)) == Mix(Step(u), Step(v))
  {
    HalfMix(u, v);
  }

  lemma StepBoth(u: bv32, v: bv32)
    requires Odd(u) && Odd(v)
    ensures Step(Mix(u, v)) == Mix(Step(u), Step(v))
  {
    HalfMix(u, v);
    MixCancel(Half(u), Half(v), POLYNOMIAL);
  }

  lemma StepLeft(u: bv32, v: bv32)
    requires Odd(u) && !Odd(v)
    ensures Step(Mix(u, v)) == Mix(Step(u), Step(v))
  {
    HalfMix(u, v);
    MixLate(Half(u), Half(v), POLYNOMIAL);
  }

  lemma StepRight(u: bv32, v: bv32)
    requires !Odd(u) && Odd(v)
    ensures Step(Mix(u, v)) == Mix(Step(u), Step(v))
  {
    HalfMix(u, v);
    MixRegroup(Half(u), Half(v), POLYNOMIAL);
  }

  lemma StepMix(u: bv32, v: bv32)
    ensures Step(Mix(u, v)) == Mix(Step(u), Step(v))
  {
    if Odd(u) && Odd(v) { StepBoth(u, v); }
    else if Odd(u) { StepLeft(u, v); }
    else if Odd(v) { StepRight(u, v); }
    else { StepNeither(u, v); }
  }

  lemma StepDistributes()
    ensures Distributes(Mix, Step)
  {
    forall a, b ensures Step(Mix(a, b)) == Mix(Step(a), Step(b)) { StepMix(a, b); }
  }

  lemma TwiceOver<T(!new)>(add: (T, T) -> T, step: T -> T, a: T, b: T)
    requires Distributes(add, step)
    ensures step(step(add(a, b))) == add(step(step(a)), step(step(b)))
  {
  }

  lemma TwiceMix(u: bv32, v: bv32)
    ensures Twice(Mix(u, v)) == Mix(Twice(u), Twice(v))
  {
    StepDistributes();
    TwiceOver(Mix, Step, u, v);
  }

  lemma TwiceZero()
    ensures Twice(0) == 0
  {
  }

  /** Each entry of `d` is two steps on from that of `t`. */
  predicate Doubled(t: seq<bv32>, d: seq<bv32>) {
    |t| == |d| && (t == [] || (d[0] == Twice(t[0]) && Doubled(t[1..], d[1..])))
  }

  lemma {:induction false} SumTwice(u: bv32, t: seq<bv32>, d: seq<bv32>)
    requires Doubled(t, d)
    ensures Twice(Sum(u, t)) == Sum(u, d)
    decreases |t|
  {
    if t == [] {
      TwiceZero();
    } else {
      SumStep(u, t);
      SumStep(u, d);
      SumTwice(Half(u), t[1..], d[1..]);
      TwiceMix(Pick(u, t[0]), Sum(Half(u), t[1..]));
    }
  }

  /** `u` has no more than `k` bits. */
  predicate Below(u: bv32, k: nat) { if k == 0 then u == 0 else Below(Half(u), k - 1) }

  lemma {:induction false} SumTop(u: bv32, t: seq<bv32>, a: bv32)
    requires Below(u, |t|)
    ensures Sum(u, t + [a]) == Sum(u, t)
    decreases |t|
  {
    SumStep(u, t + [a]);
    if t == [] {
      MixSelf(0);
      assert (t + [a])[1..] == [];
    } else {
      SumStep(u, t);
      assert (t + [a])[1..] == t[1..] + [a];
      SumTop(Half(u), t[1..], a);
    }
  }

  function Quarter(u: bv32): bv32 { u >> 4 }

  lemma FourHalves(u: bv32)
    ensures Half(Half(Half(Half(u)))) == Quarter(u)
  {
  }

  lemma BelowFour(u: bv32, k: nat)
    requires Below(Quarter(u), k)
    ensures Below(u, k + 4)
  {
    FourHalves(u);
    assert Below(Half(Half(Half(u))), k + 1);
    assert Below(Half(Half(u)), k + 2);
    assert Below(Half(u), k + 3);
  }

  lemma TopBits(u: bv32)
    requires u < 8
    ensures Below(u, 3)
  {
    assert Half(Half(Half(u))) == 0;
    assert Below(Half(Half(Half(u))), 0);
    assert Below(Half(Half(u)), 1);
    assert Below(Half(u), 2);
  }

  lemma Quarters(u: bv32)
    requires u < 0x80_0000
    ensures Quarter(Quarter(Quarter(Quarter(Quarter(u))))) < 8
  {
  }

  lemma BelowTop(u: bv32, k: nat)
    requires u < 0x80_0000 && k == 23
    ensures Below(u, k)
  {
    var a := Quarter(u);
    var b := Quarter(a);
    var c := Quarter(b);
    var d := Quarter(c);
    Quarters(u);
    TopBits(Quarter(d));
    BelowFour(d, 3);
    BelowFour(c, 7);
    BelowFour(b, 11);
    BelowFour(a, 15);
    BelowFour(u, 19);
  }

  /** The squares of the powers, from the 23rd down, four by four. */
  function Squares(): seq<bv32> {
    [0x5a_0003, 0xd8_000d, 0x00_0036, 0x00_00d8] + ([0x00_0360, 0x00_0d80, 0x00_3600, 0x00_d800] +
    ([0x03_6000, 0x0d_8000, 0x36_0000, 0xd8_0000] + ([0x00_0002, 0x00_0008, 0x00_0020, 0x00_0080] +
    ([0x00_0200, 0x00_0800, 0x00_2000, 0x00_8000] + ([0x02_0000, 0x08_0000, 0x20_0000, 0x80_0000] + [])))))
  }

  function Four(u: bv32, a: bv32, b: bv32, c: bv32, d: bv32): bv32 {
    Mix(Pick(u, a), Mix(Pick(Half(u), b), Mix(Pick(Half(Half(u)), c), Pick(Half(Half(Half(u))), d))))
  }

  lemma SumFour(u: bv32, a: bv32, b: bv32, c: bv32, d: bv32, t: seq<bv32>)
    ensures Sum(u, [a, b, c, d] + t) == Mix(Four(u, a, b, c, d), Sum(Quarter(u), t))
  {
    FourHalves(u);
    var s := [a, b, c, d] + t;
    assert s[1..][1..][1..][1..] == t;
    SumStep(u, s);
    SumStep(Half(u), s[1..]);
    SumStep(Half(Half(u)), s[1..][1..]);
    SumStep(Half(Half(Half(u))), s[1..][1..][1..]);
    var p, q, r, w := Pick(u, a), Pick(Half(u), b), Pick(Half(Half(u)), c), Pick(Half(Half(Half(u))), d);
    FourMix(p, q, r, w, Sum(Quarter(u), t));
  }

  lemma FourMix(p: bv32, q: bv32, r: bv32, w: bv32, x: bv32)
    ensures Mix(p, Mix(q, Mix(r, Mix(w, x)))) == Mix(Mix(p, Mix(q, Mix(r, w))), x)
  {
    MixRegroup(r, w, x);
    MixRegroup(q, Mix(r, w), x);
    MixRegroup(p, Mix(q, Mix(r, w)), x);
  }

  function Mix4(p: bool, q: bool, r: bool, w: bool, a: bv32, b: bv32, c: bv32, d: bv32): bv32 {
    Mix(if p then a else 0, Mix(if q then b else 0, Mix(if r then c else 0, if w then d else 0)))
  }

  lemma Mix4Is(p: bool, q: bool, r: bool, w: bool, a: bv32, b: bv32, c: bv32, d: bv32)
    ensures Mix4(p, q, r, w, a, b, c, d) == Mix(If(p, a), Mix(If(q, b), Mix(If(r, c), If(w, d))))
  {
  }

  /** The same, from the bits in place. */
  function Nibble(u: bv32, a: bv32, b: bv32, c: bv32, d: bv32): bv32 {
    Mix4(u & 1 == 1, u & 2 == 2, u & 4 == 4, u & 8 == 8, a, b, c, d)
  }

  lemma OddHalves(u: bv32)
    ensures (Odd(u) <==> u & 1 == 1) && (Odd(Half(u)) <==> u & 2 == 2)
    ensures (Odd(Half(Half(u))) <==> u & 4 == 4) && (Odd(Half(Half(Half(u)))) <==> u & 8 == 8)
  {
  }

  lemma NibbleIs(u: bv32, p: bool, q: bool, r: bool, w: bool, a: bv32, b: bv32, c: bv32, d: bv32)
    requires p == (u & 1 == 1) && q == (u & 2 == 2) && r == (u & 4 == 4) && w == (u & 8 == 8)
    ensures Nibble(u, a, b, c, d) == Mix4(p, q, r, w, a, b, c, d)
  {
  }

  lemma NibbleIsFour(u: bv32, a: bv32, b: bv32, c: bv32, d: bv32)
    ensures Nibble(u, a, b, c, d) == Four(u, a, b, c, d)
  {
    var p, q, r, w := Odd(u), Odd(Half(u)), Odd(Half(Half(u))), Odd(Half(Half(Half(u))));
    OddHalves(u);
    NibbleIs(u, p, q, r, w, a, b, c, d);
    Mix4Is(p, q, r, w, a, b, c, d);
  }

  /** The square of a state: every power it is made of, doubled. */
  function Square(u: bv32): bv32 {
    Mix(Nibble(u, 0x5a_0003, 0xd8_000d, 0x00_0036, 0x00_00d8),
    Mix(Nibble(u >> 4, 0x00_0360, 0x00_0d80, 0x00_3600, 0x00_d800),
    Mix(Nibble(u >> 8, 0x03_6000, 0x0d_8000, 0x36_0000, 0xd8_0000),
    Mix(Nibble(u >> 12, 0x00_0002, 0x00_0008, 0x00_0020, 0x00_0080),
    Mix(Nibble(u >> 16, 0x00_0200, 0x00_0800, 0x00_2000, 0x00_8000),
        Nibble(u >> 20, 0x02_0000, 0x08_0000, 0x20_0000, 0x80_0000))))))
  }

  lemma Shift8(u: bv32)
    ensures u >> 8 == Quarter(u >> 4)
  {
  }

  lemma Shift12(u: bv32)
    ensures u >> 12 == Quarter(u >> 8)
  {
  }

  lemma Shift16(u: bv32)
    ensures u >> 16 == Quarter(u >> 12)
  {
  }

  lemma Shift20(u: bv32)
    ensures u >> 20 == Quarter(u >> 16)
  {
  }

  lemma Group(u: bv32, a: bv32, b: bv32, c: bv32, d: bv32, t: seq<bv32>)
    ensures Sum(u, [a, b, c, d] + t) == Mix(Nibble(u, a, b, c, d), Sum(Quarter(u), t))
  {
    NibbleIsFour(u, a, b, c, d);
    SumFour(u, a, b, c, d, t);
  }

  lemma SumOfParts(u: bv32, a: bv32, b: bv32, c: bv32, d: bv32, e: bv32, t: seq<bv32>)
    requires t == Squares() && a == Quarter(u) && b == Quarter(a) && c == Quarter(b)
    requires d == Quarter(c) && e == Quarter(d)
    ensures Sum(u, t) == Mix(Nibble(u, 0x5a_0003, 0xd8_000d, 0x00_0036, 0x00_00d8),
                         Mix(Nibble(a, 0x00_0360, 0x00_0d80, 0x00_3600, 0x00_d800),
                         Mix(Nibble(b, 0x03_6000, 0x0d_8000, 0x36_0000, 0xd8_0000),
                         Mix(Nibble(c, 0x00_0002, 0x00_0008, 0x00_0020, 0x00_0080),
                         Mix(Nibble(d, 0x00_0200, 0x00_0800, 0x00_2000, 0x00_8000),
                             Nibble(e, 0x02_0000, 0x08_0000, 0x20_0000, 0x80_0000))))))
  {
    var t5 := [0x02_0000, 0x08_0000, 0x20_0000, 0x80_0000] + [];
    var t4 := [0x00_0200, 0x00_0800, 0x00_2000, 0x00_8000] + t5;
    var t3 := [0x00_0002, 0x00_0008, 0x00_0020, 0x00_0080] + t4;
    var t2 := [0x03_6000, 0x0d_8000, 0x36_0000, 0xd8_0000] + t3;
    var t1 := [0x00_0360, 0x00_0d80, 0x00_3600, 0x00_d800] + t2;
    Group(u, 0x5a_0003, 0xd8_000d, 0x00_0036, 0x00_00d8, t1);
    Group(a, 0x00_0360, 0x00_0d80, 0x00_3600, 0x00_d800, t2);
    Group(b, 0x03_6000, 0x0d_8000, 0x36_0000, 0xd8_0000, t3);
    Group(c, 0x00_0002, 0x00_0008, 0x00_0020, 0x00_0080, t4);
    Group(d, 0x00_0200, 0x00_0800, 0x00_2000, 0x00_8000, t5);
    Group(e, 0x02_0000, 0x08_0000, 0x20_0000, 0x80_0000, []);
    MixZero(Nibble(e, 0x02_0000, 0x08_0000, 0x20_0000, 0x80_0000));
  }

  lemma SquareIsSum(u: bv32, t: seq<bv32>)
    requires t == Squares()
    ensures Square(u) == Sum(u, t)
  {
    assert u >> 4 == Quarter(u);
    Shift8(u);
    Shift12(u);
    Shift16(u);
    Shift20(u);
    SumOfParts(u, u >> 4, u >> 8, u >> 12, u >> 16, u >> 20, t);
  }

  lemma SquareOfStep(u: bv32, t: seq<bv32>)
    requires In24(u) && t == Squares()
    ensures Square(Step(u)) == Twice(Square(u))
  {
    var low := t[..23];
    SquareIsSum(u, t);
    TableDoubles(t, [0xa2_8000] + low);
    SumTwice(u, t, [0xa2_8000] + low);
    SumStep(u, [0xa2_8000] + low);
    assert ([0xa2_8000] + low)[1..] == low;
    assert t == low + [0x80_0000];
    HalfBelow(u, 23);
    SumTop(Half(u), low, 0x80_0000);
    SquareOfHalf(u, t);
  }

  lemma HalfBelow(u: bv32, k: nat)
    requires In24(u) && k == 23
    ensures Below(Half(u), k)
  {
    BelowTop(Half(u), k);
  }

  /** A step halves the state and, if it was odd, adds what the lost bit stands for. */
  lemma SquareOfHalf(u: bv32, t: seq<bv32>)
    requires t == Squares()
    ensures Square(Step(u)) == Mix(Pick(u, 0xa2_8000), Sum(Half(u), t))
  {
    SquareIsSum(Step(u), t);
    if Odd(u) {
      SumMix(Half(u), POLYNOMIAL, t);
      SquareIsSum(POLYNOMIAL, t);
      SquareOfPolynomial();
      MixCommute(Sum(Half(u), t), 0xa2_8000);
    } else {
      MixSelf(Sum(Half(u), t));
    }
  }

  lemma SquareOfPolynomial()
    ensures Square(POLYNOMIAL) == 0xa2_8000
  {
  }

  lemma DoubledFour(a: bv32, b: bv32, c: bv32, d: bv32, z: bv32, t: seq<bv32>, e: seq<bv32>)
    requires Twice(a) == z && Twice(b) == a && Twice(c) == b && Twice(d) == c && Doubled(t, e)
    ensures Doubled([a, b, c, d] + t, [z, a, b, c] + e)
  {
    var s, f := [a, b, c, d] + t, [z, a, b, c] + e;
    assert s[1..][1..][1..][1..] == t && f[1..][1..][1..][1..] == e;
    assert Doubled(s[1..][1..][1..], f[1..][1..][1..]);
    assert Doubled(s[1..][1..], f[1..][1..]);
    assert Doubled(s[1..], f[1..]);
  }

  lemma ShiftedTable(t: seq<bv32>, e: seq<bv32>, e1: seq<bv32>)
    requires t == Squares() && e == [0xa2_8000] + t[..23]
    requires e1 ==
      [0x00_00d8, 0x00_0360, 0x00_0d80, 0x00_3600] + ([0x00_d800, 0x03_6000, 0x0d_8000, 0x36_0000] +
      ([0xd8_0000, 0x00_0002, 0x00_0008, 0x00_0020] + ([0x00_0080, 0x00_0200, 0x00_0800, 0x00_2000] +
      ([0x00_8000, 0x02_0000, 0x08_0000, 0x20_0000] + []))))
    ensures e == [0xa2_8000, 0x5a_0003, 0xd8_000d, 0x00_0036] + e1
  {
  }

  /** Two steps double a power: each entry comes to the one before it, the first to the 48th power. */
  lemma TableDoubles(t: seq<bv32>, e: seq<bv32>)
    requires t == Squares() && e == [0xa2_8000] + t[..23]
    ensures Doubled(t, e)
  {
    var e5 := [0x00_8000, 0x02_0000, 0x08_0000, 0x20_0000] + [];
    var t5 := [0x02_0000, 0x08_0000, 0x20_0000, 0x80_0000] + [];
    var e4 := [0x00_0080, 0x00_0200, 0x00_0800, 0x00_2000] + e5;
    var t4 := [0x00_0200, 0x00_0800, 0x00_2000, 0x00_8000] + t5;
    var e3 := [0xd8_0000, 0x00_0002, 0x00_0008, 0x00_0020] + e4;
    var t3 := [0x00_0002, 0x00_0008, 0x00_0020, 0x00_0080] + t4;
    var e2 := [0x00_d800, 0x03_6000, 0x0d_8000, 0x36_0000] + e3;
    var t2 := [0x03_6000, 0x0d_8000, 0x36_0000, 0xd8_0000] + t3;
    var e1 := [0x00_00d8, 0x00_0360, 0x00_0d80, 0x00_3600] + e2;
    var t1 := [0x00_0360, 0x00_0d80, 0x00_3600, 0x00_d800] + t2;
    DoubledFour(0x02_0000, 0x08_0000, 0x20_0000, 0x80_0000, 0x00_8000, [], []);
    DoubledFour(0x00_0200, 0x00_0800, 0x00_2000, 0x00_8000, 0x00_0080, t5, e5);
    DoubledFour(0x00_0002, 0x00_0008, 0x00_0020, 0x00_0080, 0xd8_0000, t4, e4);
    DoubledFour(0x03_6000, 0x0d_8000, 0x36_0000, 0xd8_0000, 0x00_d800, t3, e3);
    DoubledFour(0x00_0360, 0x00_0d80, 0x00_3600, 0x00_d800, 0x00_00d8, t2, e2);
    DoubledFour(0x5a_0003, 0xd8_000d, 0x00_0036, 0x00_00d8, 0xa2_8000, t1, e1);
    ShiftedTable(t, e, e1);
  }
}
