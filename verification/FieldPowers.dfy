/**
 The powers the shift register runs through from the unit, computed by doubling
 the exponent: that of 2^24 - 1 is the unit again, and none of those of its
 quotients by a prime is.
 */
module FieldPowers {
  import opened Lfsr
  import opened FieldSquares

  /** The number of non-zero states. */
  const PERIOD: nat := 16_777_215

  // ---- Powers by doubling ----

  function Iterated<T>(step: T -> T, u: T, n: nat): T {
    if n == 0 then u else step(Iterated(step, u, n - 1))
  }

  ghost predicate Doubles<T(!new)>(step: T -> T, square: T -> T, inside: T -> bool) {
    && (forall u {:trigger inside(step(u))} :: inside(u) ==> inside(step(u)))
    && (forall u {:trigger square(step(u))} :: inside(u) ==> square(step(u)) == step(step(square(u))))
  }

  lemma {:induction false} IteratedDoubles<T(!new)>(step: T -> T, square: T -> T, inside: T -> bool, u: T, n: nat)
    requires Doubles(step, square, inside) && inside(u) && square(u) == u
    ensures inside(Iterated(step, u, n)) && Iterated(step, u, 2 * n) == square(Iterated(step, u, n))
  {
    if n > 0 {
      IteratedDoubles(step, square, inside, u, n - 1);
      assert Iterated(step, u, 2 * n - 1) == step(Iterated(step, u, 2 * (n - 1)));
    }
  }

  lemma StepDoubles()
    ensures Doubles(Step, Square, In24)
  {
    forall u | In24(u) ensures In24(Step(u)) && Square(Step(u)) == Step(Step(Square(u))) {
      StepTopBit(u);
      SquareOfStep(u, Squares());
    }
  }

  lemma SquareOfUnit()
    ensures Square(UNIT) == UNIT
  {
  }

  lemma {:induction false} AfterIsIterated(u: bv32, n: nat)
    ensures After(u, n) == Iterated(Step, u, n)
    decreases n
  {
    if n > 0 {
      AfterIsIterated(u, n - 1);
    }
  }

  /** Twice as many steps from the unit come to the square. */
  lemma Doubling(n: nat)
    ensures After(UNIT, 2 * n) == Square(After(UNIT, n))
  {
    StepDoubles();
    SquareOfUnit();
    IteratedDoubles(Step, Square, In24, UNIT, n);
    AfterIsIterated(UNIT, n);
    AfterIsIterated(UNIT, 2 * n);
  }

  /** Where the rule below is applied. */
  predicate At(k: nat) { true }

  /** The rule that leads from a power to those of twice the exponent and one more. */
  ghost predicate Climbs(p: nat -> bv32) {
    && p(0) == UNIT
    && forall k: nat {:trigger At(k)} :: At(k) ==> p(2 * k) == Square(p(k)) && p(2 * k + 1) == Step(Square(p(k)))
  }

  lemma Up(p: nat -> bv32, k: nat, n: nat, u: bv32, v: bv32)
    requires Climbs(p) && p(k) == u
    requires (n == 2 * k && v == Square(u)) || (n == 2 * k + 1 && v == Step(Square(u)))
    ensures p(n) == v
  {
    assert At(k);
  }

  function PowerOf(n: nat): bv32 { After(UNIT, n) }

  lemma PowersClimb()
    ensures Climbs(PowerOf)
  {
    forall k: nat ensures PowerOf(2 * k) == Square(PowerOf(k)) && PowerOf(2 * k + 1) == Step(Square(PowerOf(k))) {
      Doubling(k);
    }
  }

  // ---- The powers that decide the order: the period, and its quotients by each prime ----

  lemma WholePowerBegun(p: nat -> bv32)
    requires Climbs(p)
    ensures p(4095) == 0xb4_210b
  {
    Up(p, 0, 1, 0x80_0000, 0x40_0000);
    Up(p, 1, 3, 0x40_0000, 0x10_0000);
    Up(p, 3, 7, 0x10_0000, 0x01_0000);
    Up(p, 7, 15, 0x01_0000, 0x00_0100);
    Up(p, 15, 31, 0x00_0100, 0x01_b000);
    Up(p, 31, 63, 0x01_b000, 0x00_0145);
    Up(p, 63, 127, 0x00_0145, 0xf4_ab1a);
    Up(p, 127, 255, 0xf4_ab1a, 0x8a_619e);
    Up(p, 255, 511, 0x8a_619e, 0xf5_99d5);
    Up(p, 511, 1023, 0xf5_99d5, 0xcd_d7eb);
    Up(p, 1023, 2047, 0xcd_d7eb, 0x0d_50fa);
    Up(p, 2047, 4095, 0x0d_50fa, 0xb4_210b);
  }

  lemma WholePower(p: nat -> bv32)
    requires Climbs(p)
    ensures p(16777215) == 0x80_0000
  {
    WholePowerBegun(p);
    Up(p, 4095, 8191, 0xb4_210b, 0x05_a06f);
    Up(p, 8191, 16383, 0x05_a06f, 0x41_0cf4);
    Up(p, 16383, 32767, 0x41_0cf4, 0x67_716b);
    Up(p, 32767, 65535, 0x67_716b, 0x54_b8be);
    Up(p, 65535, 131071, 0x54_b8be, 0xc9_7b44);
    Up(p, 131071, 262143, 0xc9_7b44, 0x3b_2a0e);
    Up(p, 262143, 524287, 0x3b_2a0e, 0xdb_8575);
    Up(p, 524287, 1048575, 0xdb_8575, 0xbe_e92a);
    Up(p, 1048575, 2097151, 0xbe_e92a, 0x9c_e2fe);
    Up(p, 2097151, 4194303, 0x9c_e2fe, 0xf3_e055);
    Up(p, 4194303, 8388607, 0xf3_e055, 0xa0_1ffe);
    Up(p, 8388607, 16777215, 0xa0_1ffe, 0x80_0000);
  }

  lemma PowerBy3Begun(p: nat -> bv32)
    requires Climbs(p)
    ensures p(1365) == 0x8f_491d
  {
    Up(p, 0, 1, 0x80_0000, 0x40_0000);
    Up(p, 1, 2, 0x40_0000, 0x20_0000);
    Up(p, 2, 5, 0x20_0000, 0x04_0000);
    Up(p, 5, 10, 0x04_0000, 0x00_2000);
    Up(p, 10, 21, 0x00_2000, 0x00_0004);
    Up(p, 21, 42, 0x00_0004, 0x00_0036);
    Up(p, 42, 85, 0x00_0036, 0xb4_076d);
    Up(p, 85, 170, 0xb4_076d, 0xe8_fb6d);
    Up(p, 170, 341, 0xe8_fb6d, 0xca_2de3);
    Up(p, 341, 682, 0xca_2de3, 0xcf_0b86);
    Up(p, 682, 1365, 0xcf_0b86, 0x8f_491d);
  }

  lemma PowerBy3(p: nat -> bv32)
    requires Climbs(p)
    ensures p(5592405) == 0x72_0800
  {
    PowerBy3Begun(p);
    Up(p, 1365, 2730, 0x8f_491d, 0x01_c9ad);
    Up(p, 2730, 5461, 0x01_c9ad, 0x98_dbe6);
    Up(p, 5461, 10922, 0x98_dbe6, 0x8c_8319);
    Up(p, 10922, 21845, 0x8c_8319, 0xb2_219d);
    Up(p, 21845, 43690, 0xb2_219d, 0xd3_b385);
    Up(p, 43690, 87381, 0xd3_b385, 0xa3_195f);
    Up(p, 87381, 174762, 0xa3_195f, 0xd1_5f82);
    Up(p, 174762, 349525, 0xd1_5f82, 0x95_1d17);
    Up(p, 349525, 699050, 0x95_1d17, 0xed_415a);
    Up(p, 699050, 1398101, 0xed_415a, 0xe1_fbca);
    Up(p, 1398101, 2796202, 0xe1_fbca, 0xa6_0c7f);
    Up(p, 2796202, 5592405, 0xa6_0c7f, 0x72_0800);
  }

  lemma PowerBy5Begun(p: nat -> bv32)
    requires Climbs(p)
    ensures p(819) == 0x86_559b
  {
    Up(p, 0, 1, 0x80_0000, 0x40_0000);
    Up(p, 1, 3, 0x40_0000, 0x10_0000);
    Up(p, 3, 6, 0x10_0000, 0x02_0000);
    Up(p, 6, 12, 0x02_0000, 0x00_0800);
    Up(p, 12, 25, 0x00_0800, 0x6c_0000);
    Up(p, 25, 51, 0x6c_0000, 0x14_5000);
    Up(p, 51, 102, 0x14_5000, 0x02_2022);
    Up(p, 102, 204, 0x02_2022, 0xd8_0585);
    Up(p, 204, 409, 0xd8_0585, 0xbe_9c1a);
    Up(p, 409, 819, 0xbe_9c1a, 0x86_559b);
  }

  lemma PowerBy5(p: nat -> bv32)
    requires Climbs(p)
    ensures p(3355443) == 0xd5_9b8f
  {
    PowerBy5Begun(p);
    Up(p, 819, 1638, 0x86_559b, 0x37_9394);
    Up(p, 1638, 3276, 0x37_9394, 0x04_11d4);
    Up(p, 3276, 6553, 0x04_11d4, 0x01_d6aa);
    Up(p, 6553, 13107, 0x01_d6aa, 0xa9_abfb);
    Up(p, 13107, 26214, 0xa9_abfb, 0xdc_82be);
    Up(p, 26214, 52428, 0xdc_82be, 0x77_f683);
    Up(p, 52428, 104857, 0x77_f683, 0x49_b952);
    Up(p, 104857, 209715, 0x49_b952, 0xc9_ebf3);
    Up(p, 209715, 419430, 0xc9_ebf3, 0xf4_8246);
    Up(p, 419430, 838860, 0xf4_8246, 0x7f_96bb);
    Up(p, 838860, 1677721, 0x7f_96bb, 0x49_fe5a);
    Up(p, 1677721, 3355443, 0x49_fe5a, 0xd5_9b8f);
  }

  lemma PowerBy7Begun(p: nat -> bv32)
    requires Climbs(p)
    ensures p(585) == 0xab_dc4f
  {
    Up(p, 0, 1, 0x80_0000, 0x40_0000);
    Up(p, 1, 2, 0x40_0000, 0x20_0000);
    Up(p, 2, 4, 0x20_0000, 0x08_0000);
    Up(p, 4, 9, 0x08_0000, 0x00_4000);
    Up(p, 9, 18, 0x00_4000, 0x00_0020);
    Up(p, 18, 36, 0x00_0020, 0x00_0d80);
    Up(p, 36, 73, 0x00_0d80, 0x76_dc00);
    Up(p, 73, 146, 0x76_dc00, 0xc4_28a2);
    Up(p, 146, 292, 0xc4_28a2, 0xa0_f585);
    Up(p, 292, 585, 0xa0_f585, 0xab_dc4f);
  }

  lemma PowerBy7(p: nat -> bv32)
    requires Climbs(p)
    ensures p(2396745) == 0xb5_4700
  {
    PowerBy7Begun(p);
    Up(p, 585, 1170, 0xab_dc4f, 0xe4_bc42);
    Up(p, 1170, 2340, 0xe4_bc42, 0x9e_1687);
    Up(p, 2340, 4681, 0x9e_1687, 0x1d_f81d);
    Up(p, 4681, 9362, 0x1d_f81d, 0x80_a127);
    Up(p, 9362, 18724, 0x80_a127, 0x01_6d30);
    Up(p, 18724, 37449, 0x01_6d30, 0x76_b664);
    Up(p, 37449, 74898, 0x76_b664, 0x11_933c);
    Up(p, 74898, 149796, 0x11_933c, 0x0c_ec8c);
    Up(p, 149796, 299593, 0x0c_ec8c, 0x77_3c23);
    Up(p, 299593, 599186, 0x77_3c23, 0x46_2784);
    Up(p, 599186, 1198372, 0x46_2784, 0x18_103e);
    Up(p, 1198372, 2396745, 0x18_103e, 0xb5_4700);
  }

  lemma PowerBy13Begun(p: nat -> bv32)
    requires Climbs(p)
    ensures p(315) == 0xef_3d5f
  {
    Up(p, 0, 1, 0x80_0000, 0x40_0000);
    Up(p, 1, 2, 0x40_0000, 0x20_0000);
    Up(p, 2, 4, 0x20_0000, 0x08_0000);
    Up(p, 4, 9, 0x08_0000, 0x00_4000);
    Up(p, 9, 19, 0x00_4000, 0x00_0010);
    Up(p, 19, 39, 0x00_0010, 0x00_01b0);
    Up(p, 39, 78, 0x00_01b0, 0x03_b6e0);
    Up(p, 78, 157, 0x03_b6e0, 0x1d_b485);
    Up(p, 157, 315, 0x1d_b485, 0xef_3d5f);
  }

  lemma PowerBy13(p: nat -> bv32)
    requires Climbs(p)
    ensures p(1290555) == 0x13_f7c0
  {
    PowerBy13Begun(p);
    Up(p, 315, 630, 0xef_3d5f, 0xc7_ff8a);
    Up(p, 630, 1260, 0xc7_ff8a, 0x98_127f);
    Up(p, 1260, 2520, 0x98_127f, 0x0d_3802);
    Up(p, 2520, 5041, 0x0d_3802, 0xd8_5103);
    Up(p, 5041, 10082, 0xd8_5103, 0x23_e02c);
    Up(p, 10082, 20164, 0x23_e02c, 0x08_07c6);
    Up(p, 20164, 40329, 0x08_07c6, 0xa8_471d);
    Up(p, 40329, 80659, 0xa8_471d, 0xad_31d6);
    Up(p, 80659, 161319, 0xad_31d6, 0xf1_97a8);
    Up(p, 161319, 322638, 0xf1_97a8, 0x92_37da);
    Up(p, 322638, 645277, 0x92_37da, 0xe9_02df);
    Up(p, 645277, 1290555, 0xe9_02df, 0x13_f7c0);
  }

  lemma PowerBy17Begun(p: nat -> bv32)
    requires Climbs(p)
    ensures p(240) == 0x4f_7738
  {
    Up(p, 0, 1, 0x80_0000, 0x40_0000);
    Up(p, 1, 3, 0x40_0000, 0x10_0000);
    Up(p, 3, 7, 0x10_0000, 0x01_0000);
    Up(p, 7, 15, 0x01_0000, 0x00_0100);
    Up(p, 15, 30, 0x00_0100, 0x03_6000);
    Up(p, 30, 60, 0x03_6000, 0x00_0a28);
    Up(p, 60, 120, 0x00_0a28, 0xd5_8d58);
    Up(p, 120, 240, 0xd5_8d58, 0x4f_7738);
  }

  lemma PowerBy17(p: nat -> bv32)
    requires Climbs(p)
    ensures p(986895) == 0x5d_1147
  {
    PowerBy17Begun(p);
    Up(p, 240, 481, 0x4f_7738, 0x0c_2209);
    Up(p, 481, 963, 0x0c_2209, 0xf3_9069);
    Up(p, 963, 1927, 0xf3_9069, 0xa0_18ec);
    Up(p, 1927, 3855, 0xa0_18ec, 0x28_71b6);
    Up(p, 3855, 7710, 0x28_71b6, 0xd3_36f1);
    Up(p, 7710, 15420, 0xd3_36f1, 0xc3_6ae9);
    Up(p, 15420, 30840, 0xc3_6ae9, 0x2f_6973);
    Up(p, 30840, 61680, 0x2f_6973, 0x51_f2c6);
    Up(p, 61680, 123361, 0x51_f2c6, 0xa3_b648);
    Up(p, 123361, 246723, 0xa3_b648, 0x59_de29);
    Up(p, 246723, 493447, 0x59_de29, 0x95_87fc);
    Up(p, 493447, 986895, 0x95_87fc, 0x5d_1147);
  }

  lemma PowerBy241Begun(p: nat -> bv32)
    requires Climbs(p)
    ensures p(16) == 0x00_0080
  {
    Up(p, 0, 1, 0x80_0000, 0x40_0000);
    Up(p, 1, 2, 0x40_0000, 0x20_0000);
    Up(p, 2, 4, 0x20_0000, 0x08_0000);
    Up(p, 4, 8, 0x08_0000, 0x00_8000);
    Up(p, 8, 16, 0x00_8000, 0x00_0080);
  }

  lemma PowerBy241(p: nat -> bv32)
    requires Climbs(p)
    ensures p(69615) == 0x5e_700d
  {
    PowerBy241Begun(p);
    Up(p, 16, 33, 0x00_0080, 0x00_6c00);
    Up(p, 33, 67, 0x00_6c00, 0x77_0014);
    Up(p, 67, 135, 0x77_0014, 0x15_14ab);
    Up(p, 135, 271, 0x15_14ab, 0x5b_7baa);
    Up(p, 271, 543, 0x5b_7baa, 0xce_5fbf);
    Up(p, 543, 1087, 0xce_5fbf, 0x61_4f11);
    Up(p, 1087, 2175, 0x61_4f11, 0x91_70a1);
    Up(p, 2175, 4350, 0x91_70a1, 0xd8_d7a9);
    Up(p, 4350, 8701, 0xd8_d7a9, 0xb8_5afc);
    Up(p, 8701, 17403, 0xb8_5afc, 0x2f_f016);
    Up(p, 17403, 34807, 0x2f_f016, 0xb0_54f8);
    Up(p, 34807, 69615, 0xb0_54f8, 0x5e_700d);
  }

  lemma WholeReturns(n: nat)
    requires n == PERIOD
    ensures After(UNIT, n) == UNIT
  {
    PowersClimb();
    WholePower(PowerOf);
  }

  lemma NotBy3(n: nat)
    requires 3 * n == PERIOD
    ensures After(UNIT, n) != UNIT
  {
    PowersClimb();
    PowerBy3(PowerOf);
  }

  lemma NotBy5(n: nat)
    requires 5 * n == PERIOD
    ensures After(UNIT, n) != UNIT
  {
    PowersClimb();
    PowerBy5(PowerOf);
  }

  lemma NotBy7(n: nat)
    requires 7 * n == PERIOD
    ensures After(UNIT, n) != UNIT
  {
    PowersClimb();
    PowerBy7(PowerOf);
  }

  lemma NotBy13(n: nat)
    requires 13 * n == PERIOD
    ensures After(UNIT, n) != UNIT
  {
    PowersClimb();
    PowerBy13(PowerOf);
  }

  lemma NotBy17(n: nat)
    requires 17 * n == PERIOD
    ensures After(UNIT, n) != UNIT
  {
    PowersClimb();
    PowerBy17(PowerOf);
  }

  lemma NotBy241(n: nat)
    requires 241 * n == PERIOD
    ensures After(UNIT, n) != UNIT
  {
    PowersClimb();
    PowerBy241(PowerOf);
  }

  /** The primes that divide the period. */
  predicate Factor(q: nat) { q == 3 || q == 5 || q == 7 || q == 13 || q == 17 || q == 241 }

  /** No quotient of the period by a prime is a period. */
  lemma NoQuotient(q: nat, n: nat)
    requires Factor(q) && q * n == PERIOD
    ensures After(UNIT, n) != UNIT
  {
    if q == 3 { NotBy3(n); }
    else if q == 5 { NotBy5(n); }
    else if q == 7 { NotBy7(n); }
    else if q == 13 { NotBy13(n); }
    else if q == 17 { NotBy17(n); }
    else { NotBy241(n); }
  }
}
