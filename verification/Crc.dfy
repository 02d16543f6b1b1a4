/**
 The two CRCs of the Phobos codec: CRC-32 for the STUN FINGERPRINT attribute,
 CRC-8 for the keystream. The table-driven forms the codec computes are the
 bit-serial shift registers they stand for. The bit operations stand behind
 small functions so that proofs work on their laws.
 */
module Crc {
  import opened Bytes

  const POLYNOMIAL: bv32 := 0xEDB8_8320

  function Mix(a: bv32, b: bv32): bv32 { a ^ b }

  function Half(a: bv32): bv32 { a >> 1 }

  predicate Low(a: bv32) { a & 1 == 1 }

  function Not(a: bv32): bv32 { !a }

  function Wide(b: byte): bv32 { b as bv32 }

  lemma MixCommutes(a: bv32, b: bv32)
    ensures Mix(a, b) == Mix(b, a)
  {
  }

  lemma MixAssociates(a: bv32, b: bv32, c: bv32)
    ensures Mix(Mix(a, b), c) == Mix(a, Mix(b, c))
  {
  }

  lemma MixTwice(a: bv32, b: bv32)
    ensures Mix(b, Mix(a, b)) == a
  {
  }

  lemma MixLaws(a: bv32, b: bv32, c: bv32)
    ensures Mix(Mix(a, b), c) == Mix(a, Mix(b, c)) == Mix(Mix(a, c), b)
  {
    MixAssociates(a, b, c);
    MixAssociates(a, c, b);
    MixCommutes(b, c);
  }

  lemma MixCancels(a: bv32, b: bv32, c: bv32)
    ensures Mix(Mix(a, c), Mix(b, c)) == Mix(a, b)
  {
    MixAssociates(a, c, Mix(b, c));
    MixTwice(b, c);
  }

  lemma MixZero(a: bv32)
    ensures Mix(a, 0) == a
  {
  }

  lemma HalfOfMix(a: bv32, b: bv32)
    ensures Half(Mix(a, b)) == Mix(Half(a), Half(b))
    ensures Low(Mix(a, b)) <==> Low(a) != Low(b)
  {
  }

  // ---- The table ----

  function Shift(crc: bv32): bv32 {
    if Low(crc) then Mix(Half(crc), POLYNOMIAL) else Half(crc)
  }

  function ShiftTimes(crc: bv32, n: nat): bv32
    decreases n
  {
    if n == 0 then crc else ShiftTimes(Shift(crc), n - 1)
  }

  /** The table entry for a byte. */
  function Entry(b: byte): bv32 {
    ShiftTimes(Wide(b), 8)
  }

  function LowByte(x: bv32): byte { (x & 0xFF) as bv8 }

  function HighBytes(x: bv32): bv32 { x >> 8 }

  function Fold(crc: bv32, data: seq<byte>): bv32 {
    if data == [] then crc else
    var before := Fold(crc, data[..|data| - 1]);
    Mix(Entry(LowByte(Mix(before, Wide(data[|data| - 1])))), HighBytes(before))
  }

  /** The CRC as the codec computes it. */
  function Crc32(data: seq<byte>): bv32 {
    Not(Fold(0xFFFF_FFFF, data))
  }

  // ---- The shift register ----

  /** One message bit, the low bit of `b`, into the register. */
  function Feed(crc: bv32, b: byte): bv32 {
    if Low(crc) != Low(Wide(b)) then Mix(Half(crc), POLYNOMIAL) else Half(crc)
  }

  /** The low `n` bits of `b`, least significant first. */
  function FeedByte(crc: bv32, b: byte, n: nat): bv32
    decreases n
  {
    if n == 0 then crc else FeedByte(Feed(crc, b), b >> 1, n - 1)
  }

  /** The register after every bit of `data`, from all ones. */
  function Register(data: seq<byte>): bv32 {
    if data == [] then 0xFFFF_FFFF else FeedByte(Register(data[..|data| - 1]), data[|data| - 1], 8)
  }

  // ---- They agree ----

  function Shifted(b: byte, n: nat): byte
    decreases n
  {
    if n == 0 then b else Shifted(b >> 1, n - 1)
  }

  lemma WideHalf(b: byte)
    ensures Wide(b >> 1) == Half(Wide(b))
  {
  }

  lemma FeedIsShift(crc: bv32, b: byte)
    ensures Mix(Feed(crc, b), Wide(b >> 1)) == Shift(Mix(crc, Wide(b)))
  {
    WideHalf(b);
    HalfOfMix(crc, Wide(b));
    if Low(crc) != Low(Wide(b)) {
      MixLaws(Half(crc), POLYNOMIAL, Half(Wide(b)));
    }
  }

  /** Feeding a byte bit by bit is mixing it in and shifting. */
  lemma {:induction false} FeedByteIsShift(crc: bv32, b: byte, n: nat)
    ensures Mix(FeedByte(crc, b, n), Wide(Shifted(b, n))) == ShiftTimes(Mix(crc, Wide(b)), n)
    decreases n
  {
    if n > 0 {
      FeedIsShift(crc, b);
      FeedByteIsShift(Feed(crc, b), b >> 1, n - 1);
    }
  }

  lemma ShiftIsLinear(a: bv32, b: bv32)
    ensures Shift(Mix(a, b)) == Mix(Shift(a), Shift(b))
  {
    HalfOfMix(a, b);
    if Low(a) && Low(b) {
      MixCancels(Half(a), Half(b), POLYNOMIAL);
    } else if Low(a) {
      MixLaws(Half(a), POLYNOMIAL, Half(b));
    } else if Low(b) {
      MixLaws(Half(a), Half(b), POLYNOMIAL);
    }
  }

  lemma {:induction false} ShiftsAreLinear(a: bv32, b: bv32, n: nat)
    ensures ShiftTimes(Mix(a, b), n) == Mix(ShiftTimes(a, n), ShiftTimes(b, n))
    decreases n
  {
    if n > 0 {
      ShiftIsLinear(a, b);
      ShiftsAreLinear(Shift(a), Shift(b), n - 1);
    }
  }

  /** `n` halvings. */
  function Halved(x: bv32, n: nat): bv32
    decreases n
  {
    if n == 0 then x else Halved(Half(x), n - 1)
  }

  /** A word whose low `n` bits are clear shifts without feedback. */
  predicate Clear(x: bv32, n: nat)
    decreases n
  {
    n == 0 || (!Low(x) && Clear(Half(x), n - 1))
  }

  lemma {:induction false} ClearShiftsPlainly(x: bv32, n: nat)
    requires Clear(x, n)
    ensures ShiftTimes(x, n) == Halved(x, n)
    decreases n
  {
    if n > 0 {
      ClearShiftsPlainly(Half(x), n - 1);
    }
  }

  function Upper(x: bv32): bv32 { x & 0xFFFF_FF00 }

  lemma UpperIsClear(x: bv32)
    ensures Clear(Upper(x), 8)
  {
  }

  lemma UpperHalved(x: bv32)
    ensures Halved(Upper(x), 8) == HighBytes(x)
  {
  }

  lemma SplitWord(x: bv32)
    ensures x == Mix(Wide(LowByte(x)), Upper(x))
  {
  }

  lemma HighBytesOfMix(crc: bv32, b: byte)
    ensures HighBytes(Mix(crc, Wide(b))) == HighBytes(crc)
  {
  }

  lemma ShiftedOut(b: byte)
    ensures Shifted(b, 8) == 0
  {
  }

  /** One table lookup is eight steps of the register. */
  lemma EntryStep(crc: bv32, b: byte)
    ensures Mix(Entry(LowByte(Mix(crc, Wide(b)))), HighBytes(crc)) == FeedByte(crc, b, 8)
  {
    var x := Mix(crc, Wide(b));
    FeedByteIsShift(crc, b, 8);
    ShiftedOut(b);
    MixZero(FeedByte(crc, b, 8));
    SplitWord(x);
    ShiftsAreLinear(Wide(LowByte(x)), Upper(x), 8);
    UpperIsClear(x);
    ClearShiftsPlainly(Upper(x), 8);
    UpperHalved(x);
    HighBytesOfMix(crc, b);
  }

  /** The table-driven CRC-32 is the bit-serial one, on every input. */
  lemma {:induction false} TableIsRegister(data: seq<byte>)
    ensures Fold(0xFFFF_FFFF, data) == Register(data)
  {
    if data != [] {
      TableIsRegister(data[..|data| - 1]);
      EntryStep(Register(data[..|data| - 1]), data[|data| - 1]);
    }
  }

  /** The loop behind `Crc32`. */
  method ComputeCrc32(data: seq<byte>) returns (crc: bv32)
    ensures crc == Crc32(data) == Not(Register(data))
  {
    var acc: bv32 := 0xFFFF_FFFF;
    for i := 0 to |data|
      invariant acc == Fold(0xFFFF_FFFF, data[..i])
    {
      assert data[..i + 1][..i] == data[..i];
      acc := Mix(Entry(LowByte(Mix(acc, Wide(data[i])))), HighBytes(acc));
    }
    assert data[..|data|] == data;
    TableIsRegister(data);
    crc := Not(acc);
  }

  // ---- CRC-8 ----

  const POLYNOMIAL8: byte := 0x8C

  function Half8(a: byte): byte { a >> 1 }

  predicate Low8(a: byte) { a & 1 == 1 }

  lemma XorLaws(a: byte, b: byte, c: byte)
    ensures Xor(Xor(a, b), c) == Xor(Xor(a, c), b)
    ensures Xor(a, 0) == a == Xor(0, a)
  {
  }

  /** One message bit, the low bit of `b`, into the register. */
  function Feed8(crc: byte, b: byte): byte {
    if Low8(crc) != Low8(b) then Xor(Half8(crc), POLYNOMIAL8) else Half8(crc)
  }

  function FeedByte8(crc: byte, b: byte, n: nat): byte
    decreases n, b
  {
    if n == 0 then crc else FeedByte8(Feed8(crc, b), Half8(b), n - 1)
  }

  /** The register after every bit of `data`, from zero. */
  function Register8(data: seq<byte>): byte {
    if data == [] then 0 else FeedByte8(Register8(data[..|data| - 1]), data[|data| - 1], 8)
  }

  /** The table entry for a byte. */
  function Entry8(b: byte): byte {
    FeedByte8(0, b, 8)
  }

  function Shift8(x: byte): byte {
    if Low8(x) then Xor(Half8(x), POLYNOMIAL8) else Half8(x)
  }

  function ShiftTimes8(x: byte, n: nat): byte
    decreases n
  {
    if n == 0 then x else ShiftTimes8(Shift8(x), n - 1)
  }

  function Halved8(b: byte, n: nat): byte
    decreases n
  {
    if n == 0 then b else Halved8(Half8(b), n - 1)
  }

  lemma FeedIsShift8(crc: byte, b: byte)
    ensures Xor(Feed8(crc, b), Half8(b)) == Shift8(Xor(crc, b))
  {
  }

  lemma {:induction false} FeedByteIsShift8(crc: byte, b: byte, n: nat)
    ensures Xor(FeedByte8(crc, b, n), Halved8(b, n)) == ShiftTimes8(Xor(crc, b), n)
    decreases n
  {
    if n > 0 {
      FeedIsShift8(crc, b);
      FeedByteIsShift8(Feed8(crc, b), Half8(b), n - 1);
    }
  }

  lemma HalvedOut8(b: byte)
    ensures Halved8(b, 8) == 0
  {
  }

  /** One lookup of the CRC-8 table is eight steps of its register. */
  lemma EntryStep8(crc: byte, b: byte)
    ensures Entry8(Xor(crc, b)) == FeedByte8(crc, b, 8)
  {
    FeedByteIsShift8(crc, b, 8);
    FeedByteIsShift8(0, Xor(crc, b), 8);
    HalvedOut8(b);
    HalvedOut8(Xor(crc, b));
    XorLaws(FeedByte8(crc, b, 8), 0, 0);
    XorLaws(Entry8(Xor(crc, b)), 0, 0);
    XorLaws(Xor(crc, b), 0, 0);
  }
}
