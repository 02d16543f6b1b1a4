/**
 The shift register runs through every non-zero 24-bit state before it is back
 at its seed, whatever the seed. From the unit its states are the powers of one
 element; that element has order 2^24 - 1, so they are all there are.
 */
module LfsrPeriod {
  import opened Lfsr
  import opened FieldSquares
  import opened FieldPowers

  // ---- Divisors of the period ----

  /** The greatest common divisor, as a combination of the two. */
  lemma {:induction false} Bezout(a: nat, b: nat) returns (g: nat, x: int, y: int, i: nat, j: nat)
    ensures a == g * i && b == g * j && g == x * a + y * b
    decreases b
  {
    if b == 0 {
      g, x, y, i, j := a, 1, 0, 1, 0;
    } else {
      var x', y', i', j';
      g, x', y', i', j' := Bezout(b, a % b);
      x, y, i, j := y', x' - a / b * y', a / b * i' + j', i';
      Combine(a, b, a / b, g, x', y', i', j');
    }
  }

  lemma Combine(a: nat, b: nat, q: nat, g: nat, x: int, y: int, i: nat, j: nat)
    requires b == g * i && a - q * b == g * j && g == x * b + y * (a - q * b)
    ensures a == g * (q * i + j) && g == y * a + (x - q * y) * b
  {
    assert q * b == g * (q * i) by { assert q * (g * i) == g * (q * i); }
    assert g * (q * i + j) == g * (q * i) + g * j;
    assert (x - q * y) * b == x * b - q * y * b;
    assert y * (a - q * b) == y * a - y * (q * b);
    assert y * (q * b) == q * y * b;
  }

  lemma SmallFactor(q: nat, g: nat, i: nat)
    requires Factor(q) && g * i == q && 1 < g <= 15
    ensures i == 1
  {
    assert g == 2 || g == 3 || g == 4 || g == 5 || g == 6 || g == 7 || g == 8 || g == 9
      || g == 10 || g == 11 || g == 12 || g == 13 || g == 14 || g == 15;
  }

  lemma AtLeast(a: nat, b: nat, c: nat)
    requires a >= c && b >= c
    ensures a * b >= a * c >= c * c
  {
  }

  lemma Negative(a: nat, b: int)
    requires a > 0 && b < 0
    ensures a * b < 0
  {
  }

  /** They are prime. */
  lemma FactorIsPrime(q: nat, g: nat, i: nat)
    requires Factor(q) && g * i == q
    ensures g == 1 || i == 1
  {
    if 1 < g <= 15 {
      SmallFactor(q, g, i);
    } else if 1 < i <= 15 {
      assert i * g == q;
      SmallFactor(q, i, g);
    } else if g > 15 && i > 15 {
      AtLeast(g, i, 16);
    }
  }

  lemma Cancel(q: nat, m: nat, rest: nat, c: nat, x: int, y: int)
    requires m * c == q * rest && x * q + y * m == 1
    ensures m * (x * c + y * rest) == rest
  {
    assert m * (x * c) == x * (m * c);
    assert x * (q * rest) == x * q * rest;
    assert m * (y * rest) == y * m * rest;
    assert (x * q + y * m) * rest == x * q * rest + y * m * rest;
    assert m * (x * c + y * rest) == m * (x * c) + m * (y * rest);
  }

  /** What divides a product and not its prime factor divides the rest. */
  lemma Gauss(q: nat, m: nat, rest: nat, c: nat) returns (d: nat)
    requires Factor(q) && m > 0 && m * c == q * rest && m % q != 0
    ensures m * d == rest
  {
    var g, x, y, i, j := Bezout(q, m);
    FactorIsPrime(q, g, i);
    if g != 1 {
      Multiple(q, j, m);
      assert false;
    }
    Cancel(q, m, rest, c, x, y);
    var e := x * c + y * rest;
    if e < 0 { Negative(m, e); }
    d := e;
  }

  lemma NoSmallMultiple(q: nat, d: int, r: nat)
    requires q * d == r < q
    ensures r == 0
  {
    if d > 0 { AtLeast(q, d, 1); }
    if d < 0 { Negative(q, d); }
  }

  lemma Multiple(q: nat, j: nat, m: nat)
    requires q > 0 && m == q * j
    ensures m % q == 0
  {
    var e, r := m / q, m % q;
    assert m == q * e + r;
    assert q * (j - e) == q * j - q * e;
    NoSmallMultiple(q, j - e, r);
  }

  /** A divisor of the period that none of the primes divides is one. */
  lemma OnlyOne(m: nat, c: nat)
    requires m * c == PERIOD
    requires m % 3 != 0 && m % 5 != 0 && m % 7 != 0 && m % 13 != 0 && m % 17 != 0 && m % 241 != 0
    ensures m == 1
  {
    var d := Gauss(3, m, 5_592_405, c);
    d := Gauss(3, m, 1_864_135, d);
    d := Gauss(5, m, 372_827, d);
    d := Gauss(7, m, 53_261, d);
    d := Gauss(13, m, 4_097, d);
    d := Gauss(17, m, 241, d);
    d := Gauss(241, m, 1, d);
    if m > 1 && d > 0 { AtLeast(m, d, 1); }
  }

  // ---- The least period ----

  lemma {:induction false} AfterSum(u: bv32, a: nat, b: nat)
    ensures After(u, a + b) == After(After(u, a), b)
    decreases b
  {
    if b > 0 {
      AfterSum(u, a, b - 1);
    }
  }

  lemma {:induction false} Again(k: nat, j: nat)
    requires After(UNIT, k) == UNIT
    ensures After(UNIT, k * j) == UNIT
    decreases j
  {
    if j > 0 {
      Again(k, j - 1);
      assert k * j == k * (j - 1) + k;
      AfterSum(UNIT, k * (j - 1), k);
    }
  }

  /** The register is back at the unit after `k` steps and not before. */
  ghost predicate Least(k: nat) {
    k > 0 && After(UNIT, k) == UNIT && forall i :: 1 <= i < k ==> After(UNIT, i) != UNIT
  }

  lemma FindLeast(n: nat) returns (k: nat)
    requires n > 0 && After(UNIT, n) == UNIT
    ensures Least(k) && k <= n
  {
    k := 1;
    while After(UNIT, k) != UNIT
      invariant 1 <= k <= n
      invariant forall i :: 1 <= i < k ==> After(UNIT, i) != UNIT
      decreases n - k
    {
      k := k + 1;
    }
  }

  lemma LeastDivides(k: nat, n: nat) returns (m: nat)
    requires Least(k) && After(UNIT, n) == UNIT
    ensures n == m * k
  {
    m := n / k;
    var r := n % k;
    assert n == k * m + r;
    Again(k, m);
    AfterSum(UNIT, k * m, r);
  }

  /** If a prime divided the quotient, a smaller one would be a period. */
  lemma NotDivided(k: nat, m: nat, q: nat)
    requires Least(k) && m * k == PERIOD && Factor(q)
    ensures m % q != 0
  {
    if m % q == 0 {
      var j := m / q;
      assert m == q * j;
      assert q * (k * j) == m * k;
      Again(k, j);
      NoQuotient(q, k * j);
    }
  }

  lemma QuotientIsOne(k: nat, m: nat)
    requires Least(k) && m * k == PERIOD
    ensures m == 1
  {
    NotDivided(k, m, 3);
    NotDivided(k, m, 5);
    NotDivided(k, m, 7);
    NotDivided(k, m, 13);
    NotDivided(k, m, 17);
    NotDivided(k, m, 241);
    OnlyOne(m, k);
  }

  lemma LeastIsWhole(k: nat, n: nat)
    requires Least(k) && n == PERIOD && After(UNIT, n) == UNIT
    ensures k == n
  {
    var m := LeastDivides(k, n);
    QuotientIsOne(k, m);
  }

  lemma PeriodIsLeast(n: nat)
    requires n == PERIOD
    ensures Least(n)
  {
    WholeReturns(n);
    var k := FindLeast(n);
    LeastIsWhole(k, n);
  }

  // ---- Every state is a power ----

  ghost function Numbers(n: nat): set<nat> {
    if n == 0 then {} else Numbers(n - 1) + {n}
  }

  lemma {:induction false} NumbersCounted(n: nat)
    ensures |Numbers(n)| == n && forall i :: i in Numbers(n) <==> 0 < i <= n
  {
    if n > 0 {
      NumbersCounted(n - 1);
    }
  }

  ghost function Image(f: nat -> nat, n: nat): set<nat> {
    if n == 0 then {} else Image(f, n - 1) + {f(n - 1)}
  }

  lemma {:induction false} ImageOrigin(f: nat -> nat, n: nat, v: nat) returns (i: nat)
    requires v in Image(f, n)
    ensures i < n && v == f(i)
  {
    if v == f(n - 1) {
      i := n - 1;
    } else {
      i := ImageOrigin(f, n - 1, v);
    }
  }

  ghost predicate Distinct(f: nat -> nat, n: nat) {
    forall i: nat, j: nat :: i < j < n ==> f(i) != f(j)
  }

  ghost predicate Bounded(f: nat -> nat, n: nat) {
    forall i: nat :: 0 < f(i) <= n
  }

  lemma {:induction false} ImageCounted(f: nat -> nat, n: nat, bound: nat)
    requires Distinct(f, n) && Bounded(f, bound)
    ensures |Image(f, n)| == n && Image(f, n) <= Numbers(bound)
  {
    NumbersCounted(bound);
    if n > 0 {
      ImageCounted(f, n - 1, bound);
      if f(n - 1) in Image(f, n - 1) {
        var i := ImageOrigin(f, n - 1, f(n - 1));
      }
    }
  }

  lemma {:induction false} Smaller(a: set<nat>, b: set<nat>)
    requires a <= b
    ensures |a| <= |b|
  {
    if a != {} {
      var v :| v in a;
      Smaller(a - {v}, b - {v});
    }
  }

  /** Different numbers up to `n`, `n` of them, are all the numbers up to `n`. */
  lemma Pigeonhole(f: nat -> nat, n: nat, v: nat) returns (i: nat)
    requires Distinct(f, n) && Bounded(f, n) && 0 < v <= n
    ensures f(i) == v
  {
    ImageCounted(f, n, n);
    NumbersCounted(n);
    if v !in Image(f, n) {
      Smaller(Image(f, n) + {v}, Numbers(n));
    }
    i := ImageOrigin(f, n, v);
  }

  /** The number the `k` low bits stand for. */
  function Number(x: bv32, k: nat): nat {
    if k == 0 then 0 else (if Odd(x) then 1 else 0) + 2 * Number(Half(x), k - 1)
  }

  function Pow2(k: nat): nat { if k == 0 then 1 else 2 * Pow2(k - 1) }

  lemma {:induction false} Pow2Sum(a: nat, b: nat)
    ensures Pow2(a + b) == Pow2(a) * Pow2(b)
    decreases b
  {
    if b > 0 {
      Pow2Sum(a, b - 1);
    }
  }

  lemma Pow2OfWidth(k: nat)
    requires k == 24
    ensures Pow2(k) == PERIOD + 1
  {
    assert Pow2(6) == 64;
    Pow2Sum(6, 6);
    Pow2Sum(12, 12);
  }

  lemma HalfAndOdd(x: bv32, y: bv32)
    requires Half(x) == Half(y) && Odd(x) == Odd(y)
    ensures x == y
  {
  }

  lemma {:induction false} NumberInjective(x: bv32, y: bv32, k: nat)
    requires Below(x, k) && Below(y, k) && Number(x, k) == Number(y, k)
    ensures x == y
    decreases k
  {
    if k > 0 {
      NumberInjective(Half(x), Half(y), k - 1);
      HalfAndOdd(x, y);
    }
  }

  lemma {:induction false} NumberBounds(x: bv32, k: nat)
    ensures Number(x, k) < Pow2(k)
    ensures Below(x, k) && x != 0 ==> Number(x, k) > 0
    decreases k
  {
    if k > 0 {
      NumberBounds(Half(x), k - 1);
      if Half(x) == 0 && !Odd(x) {
        HalfAndOdd(x, 0);
      }
    }
  }

  lemma StateBelow(x: bv32, k: nat)
    requires In24(x) && k == 24
    ensures Below(x, k)
  {
    HalfBelow(x, k - 1);
  }

  lemma StateBounds(i: nat, k: nat)
    requires k == 24
    ensures 0 < Number(After(UNIT, i), k) <= PERIOD
  {
    AfterInRange(UNIT, i);
    StateBelow(After(UNIT, i), k);
    NumberBounds(After(UNIT, i), k);
    Pow2OfWidth(k);
  }

  lemma PowersDiffer(i: nat, j: nat, period: nat, k: nat)
    requires Least(period) && i < j < period && k == 24
    ensures Number(After(UNIT, i), k) != Number(After(UNIT, j), k)
  {
    AfterInRange(UNIT, i);
    AfterInRange(UNIT, j);
    StateBelow(After(UNIT, i), k);
    StateBelow(After(UNIT, j), k);
    if Number(After(UNIT, i), k) == Number(After(UNIT, j), k) {
      NumberInjective(After(UNIT, i), After(UNIT, j), k);
      WindBack(UNIT, i, j);
    }
  }

  function Codes(k: nat): nat -> nat { (i: nat) => Number(After(UNIT, i), k) }

  lemma CodesBounded(k: nat, period: nat)
    requires k == 24 && period == PERIOD
    ensures Bounded(Codes(k), period)
  {
    forall i: nat ensures 0 < Codes(k)(i) <= period { StateBounds(i, k); }
  }

  lemma CodesDistinct(k: nat, period: nat)
    requires k == 24 && Least(period)
    ensures Distinct(Codes(k), period)
  {
    forall i: nat, j: nat | i < j < period ensures Codes(k)(i) != Codes(k)(j) { PowersDiffer(i, j, period, k); }
  }

  lemma SeedBounds(x: bv32, k: nat)
    requires In24(x) && x != 0 && k == 24
    ensures 0 < Number(x, k) <= PERIOD
  {
    StateBelow(x, k);
    NumberBounds(x, k);
    Pow2OfWidth(k);
  }

  lemma CodeOf(x: bv32, i: nat, k: nat)
    requires In24(x) && k == 24 && Codes(k)(i) == Number(x, k)
    ensures After(UNIT, i) == x
  {
    AfterInRange(UNIT, i);
    StateBelow(x, k);
    StateBelow(After(UNIT, i), k);
    NumberInjective(x, After(UNIT, i), k);
  }

  lemma StateIsPower(x: bv32, period: nat, k: nat) returns (i: nat)
    requires In24(x) && x != 0 && Least(period) && period == PERIOD && k == 24
    ensures After(UNIT, i) == x
  {
    CodesBounded(k, period);
    CodesDistinct(k, period);
    SeedBounds(x, k);
    i := Pigeonhole(Codes(k), period, Number(x, k));
    CodeOf(x, i, k);
  }

  lemma Returns(seed: bv32, i: nat, period: nat)
    requires Least(period) && After(UNIT, i) == seed
    ensures After(seed, period) == seed
  {
    AfterSum(UNIT, i, period);
    AfterSum(UNIT, period, i);
  }

  lemma NotBefore(seed: bv32, i: nat, k: nat, period: nat)
    requires Least(period) && After(UNIT, i) == seed && 0 < k < period
    ensures After(seed, k) != seed
  {
    AfterSum(UNIT, i, k);
    if After(UNIT, i + k) == seed {
      WindBack(UNIT, i, i + k);
    }
  }

  /**
   Whatever non-zero seed it starts from, the register runs through all
   16 777 215 non-zero states and is back at the seed after exactly that many
   steps.
   */
  lemma FullPeriod(seed: bv32, period: nat)
    requires In24(seed) && seed != 0 && period == PERIOD
    ensures After(seed, period) == seed && Room(seed, seed, period - 1)
  {
    PeriodIsLeast(period);
    var i := StateIsPower(seed, period, 24);
    Returns(seed, i, period);
    forall k | 1 <= k <= period - 1 ensures After(seed, k) != seed {
      NotBefore(seed, i, k, period);
    }
  }

  lemma {:induction false} IssuedCounted(seed: bv32, mask: bv32, n: nat)
    requires In24(seed) && seed != 0 && n > 0 && Room(seed, seed, n - 1)
    ensures |Issued(seed, mask, n)| == n
    decreases n
  {
    NextIsNew(seed, mask, n - 1);
    if n > 1 {
      IssuedCounted(seed, mask, n - 1);
    }
  }

  /**
   A register that has handed out `count` indices without coming back to its
   seed refuses the next exactly if that is 16 777 214 of them, all different.
   */
  lemma RunsOutExactly(seed: bv32, mask: bv32, count: nat, period: nat)
    requires In24(seed) && seed != 0 && Room(seed, seed, count) && period == PERIOD
    ensures |Issued(seed, mask, count)| == count < period
    ensures Step(After(seed, count)) == seed <==> count == period - 1
  {
    FullPeriod(seed, period);
    if count > 0 {
      IssuedCounted(seed, mask, count);
    }
    assert After(seed, count + 1) == Step(After(seed, count));
  }
}
