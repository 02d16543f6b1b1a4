/**
 The check values of the two CRCs: what they come to on the nine digits
 "123456789", as catalogues of CRCs list it.
 */
module CrcCheck {
  import opened Bytes
  import opened Crc

  predicate NineDigits(s: seq<byte>) {
    && |s| == 9 && s[0] == 0x31 && s[1] == 0x32 && s[2] == 0x33 && s[3] == 0x34 && s[4] == 0x35
    && s[5] == 0x36 && s[6] == 0x37 && s[7] == 0x38 && s[8] == 0x39
  }

  lemma Next(s: seq<byte>, k: nat, b: byte, before: bv32, after: bv32)
    requires k < |s| && s[k] == b && Fold(0xFFFF_FFFF, s[..k]) == before
    requires after == Mix(Entry(LowByte(Mix(before, Wide(b)))), HighBytes(before))
    ensures Fold(0xFFFF_FFFF, s[..k + 1]) == after
  {
    assert s[..k + 1][..k] == s[..k];
  }

  lemma NoneYet(s: seq<byte>)
    ensures Fold(0xFFFF_FFFF, s[..0]) == 0xFFFF_FFFF
  {
    assert s[..0] == [];
  }

  lemma AllOf(s: seq<byte>, n: nat, register: bv32)
    requires n == |s| && Fold(0xFFFF_FFFF, s[..n]) == register
    ensures Crc32(s) == Not(register)
  {
    assert s[..n] == s;
  }

  lemma Complement()
    ensures Not(0x340b_c6d9) == 0xCBF4_3926
  {
  }

  lemma ThreeDigits(s: seq<byte>)
    requires NineDigits(s)
    ensures Fold(0xFFFF_FFFF, s[..3]) == 0x77b7_9c2d
  {
    NoneYet(s);
    Next(s, 0, 0x31, 0xffff_ffff, 0x7c23_1048);
    Next(s, 1, 0x32, 0x7c23_1048, 0xb0ac_bb32);
    Next(s, 2, 0x33, 0xb0ac_bb32, 0x77b7_9c2d);
  }

  lemma SixDigits(s: seq<byte>)
    requires NineDigits(s)
    ensures Fold(0xFFFF_FFFF, s[..6]) == 0xf68d_2c9e
  {
    ThreeDigits(s);
    Next(s, 3, 0x34, 0x77b7_9c2d, 0x641c_1f5c);
    Next(s, 4, 0x35, 0x641c_1f5c, 0x340a_c5e3);
    Next(s, 5, 0x36, 0x340a_c5e3, 0xf68d_2c9e);
  }

  lemma AllDigits(s: seq<byte>)
    requires NineDigits(s)
    ensures Fold(0xFFFF_FFFF, s[..9]) == 0x340b_c6d9
  {
    SixDigits(s);
    Next(s, 6, 0x37, 0xf68d_2c9e, 0xaffc_9660);
    Next(s, 7, 0x38, 0xaffc_9660, 0x651f_2550);
    Next(s, 8, 0x39, 0x651f_2550, 0x340b_c6d9);
  }

  /** CRC-32 of the nine digits is CBF43926. */
  lemma Check32(s: seq<byte>)
    requires NineDigits(s)
    ensures Crc32(s) == 0xCBF4_3926
  {
    AllDigits(s);
    AllOf(s, 9, 0x340b_c6d9);
    Complement();
  }

  lemma Next8(s: seq<byte>, k: nat, b: byte, before: byte, after: byte)
    requires k < |s| && s[k] == b && Register8(s[..k]) == before && after == FeedByte8(before, b, 8)
    ensures Register8(s[..k + 1]) == after
  {
    assert s[..k + 1][..k] == s[..k];
  }

  lemma One8(s: seq<byte>)
    requires NineDigits(s)
    ensures Register8(s[..1]) == 0xe0
  {
    assert s[..0] == [];
    Next8(s, 0, 0x31, 0x00, 0xe0);
  }

  lemma Two8(s: seq<byte>)
    requires NineDigits(s)
    ensures Register8(s[..2]) == 0xeb
  {
    One8(s);
    Next8(s, 1, 0x32, 0xe0, 0xeb);
  }

  lemma Three8(s: seq<byte>)
    requires NineDigits(s)
    ensures Register8(s[..3]) == 0x95
  {
    Two8(s);
    Next8(s, 2, 0x33, 0xeb, 0x95);
  }

  lemma Four8(s: seq<byte>)
    requires NineDigits(s)
    ensures Register8(s[..4]) == 0xf1
  {
    Three8(s);
    Next8(s, 3, 0x34, 0x95, 0xf1);
  }

  lemma Five8(s: seq<byte>)
    requires NineDigits(s)
    ensures Register8(s[..5]) == 0xab
  {
    Four8(s);
    Next8(s, 4, 0x35, 0xf1, 0xab);
  }

  lemma Six8(s: seq<byte>)
    requires NineDigits(s)
    ensures Register8(s[..6]) == 0xec
  {
    Five8(s);
    Next8(s, 5, 0x36, 0xab, 0xec);
  }

  lemma Seven8(s: seq<byte>)
    requires NineDigits(s)
    ensures Register8(s[..7]) == 0x77
  {
    Six8(s);
    Next8(s, 6, 0x37, 0xec, 0x77);
  }

  lemma Eight8(s: seq<byte>)
    requires NineDigits(s)
    ensures Register8(s[..8]) == 0x07
  {
    Seven8(s);
    Next8(s, 7, 0x38, 0x77, 0x07);
  }

  lemma Nine8(s: seq<byte>)
    requires NineDigits(s)
    ensures Register8(s[..9]) == 0xa1
  {
    Eight8(s);
    Next8(s, 8, 0x39, 0x07, 0xa1);
  }

  /** CRC-8 of the nine digits is A1. */
  lemma Check8(s: seq<byte>)
    requires NineDigits(s)
    ensures Register8(s) == 0xa1
  {
    Nine8(s);
    assert s[..9] == s;
  }
}
