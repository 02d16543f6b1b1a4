/** Bytes, their XOR with a keystream, and little- and big-endian integers. */
module Bytes {

  type byte = bv8

  /** Keystream byte `i` under a nonce. */
  type Keystream = (seq<byte>, nat) -> byte

  function Xor(a: byte, b: byte): byte { a ^ b }

  lemma XorTwice(a: byte, b: byte)
    ensures Xor(Xor(a, b), b) == a
  {
  }

  /** `s` with its first `n` bytes XORed with the keystream for `nonce`. */
  function Masked(s: seq<byte>, n: nat, ks: Keystream, nonce: seq<byte>): (r: seq<byte>)
    ensures |r| == |s|
    ensures forall i :: 0 <= i < |s| ==> r[i] == if i < n then Xor(s[i], ks(nonce, i)) else s[i]
  {
    seq(|s|, i requires 0 <= i < |s| => if i < n then Xor(s[i], ks(nonce, i)) else s[i])
  }

  lemma MaskedTwice(s: seq<byte>, n: nat, ks: Keystream, nonce: seq<byte>)
    ensures Masked(Masked(s, n, ks, nonce), n, ks, nonce) == s
  {
  }

  lemma MaskedTake(s: seq<byte>, n: nat, ks: Keystream, nonce: seq<byte>, len: nat)
    requires len <= |s|
    ensures Masked(s, n, ks, nonce)[..len] == Masked(s[..len], n, ks, nonce)
  {
  }

  lemma DropTake(s: seq<byte>, at: nat, n: nat)
    requires at + n <= |s|
    ensures s[at..][..n] == s[at..at + n]
  {
  }

  lemma TakeSlice(s: seq<byte>, len: nat, i: nat, j: nat)
    requires i <= j <= len <= |s|
    ensures s[..len][i..j] == s[i..j]
  {
  }

  lemma DropSlice(s: seq<byte>, at: nat, i: nat, j: nat)
    requires i <= j && at + j <= |s|
    ensures s[at..][i..j] == s[at + i..at + j]
  {
  }

  lemma Cut(s: seq<byte>, i: nat, j: nat, n: nat)
    requires i <= j <= n <= |s|
    ensures s[..n] == s[..i] + s[i..j] + s[j..n]
  {
  }

  lemma Adjoin(s: seq<byte>, i: nat, j: nat, n: nat)
    requires i <= j <= n <= |s|
    ensures s[i..j] + s[j..n] == s[i..n]
  {
  }

  lemma MiddleOfThree(a: seq<byte>, b: seq<byte>, c: seq<byte>, i: nat, j: nat)
    requires i <= j <= |b|
    ensures (a + b + c)[|a| + i..|a| + j] == b[i..j]
  {
  }

  /** The little-endian value of some bytes. */
  function Le(s: seq<byte>): nat {
    if s == [] then 0 else s[0] as nat + 0x100 * Le(s[1..])
  }

  function Le32(s: seq<byte>): nat
    requires |s| == 4
  {
    Le(s)
  }

  /** The byte whose value is `n`. */
  function ByteOf(n: nat): byte
    requires n < 0x100
  {
    if n == 0 then 0 else Next(ByteOf(n - 1))
  }

  function Next(b: byte): byte { b + 1 }

  lemma NextValue(b: byte)
    requires b != 255
    ensures Next(b) as nat == b as nat + 1
  {
  }

  lemma {:induction false} ByteOfValue(n: nat)
    requires n < 0x100
    ensures ByteOf(n) as nat == n
  {
    if n > 0 {
      ByteOfValue(n - 1);
      NextValue(ByteOf(n - 1));
    }
  }

  lemma SameValue(a: byte, b: byte)
    requires a as nat == b as nat
    ensures a == b
  {
  }

  function Be16(n: nat): (s: seq<byte>)
    requires n < 0x1_0000
    ensures |s| == 2
  {
    [ByteOf(n / 0x100), ByteOf(n % 0x100)]
  }

  function FromBe16(s: seq<byte>): nat
    requires |s| == 2
  {
    s[0] as nat * 0x100 + s[1] as nat
  }

  lemma Be16RoundTrip(n: nat)
    requires n < 0x1_0000
    ensures FromBe16(Be16(n)) == n
  {
    ByteOfValue(n / 0x100);
    ByteOfValue(n % 0x100);
  }

  function Be32(n: nat): (s: seq<byte>)
    requires n < 0x1_0000_0000
    ensures |s| == 4
  {
    Be16(n / 0x1_0000) + Be16(n % 0x1_0000)
  }

  function FromBe32(s: seq<byte>): nat
    requires |s| == 4
  {
    FromBe16(s[..2]) * 0x1_0000 + FromBe16(s[2..])
  }

  lemma Be32RoundTrip(n: nat)
    requires n < 0x1_0000_0000
    ensures FromBe32(Be32(n)) == n
  {
    assert Be32(n)[..2] == Be16(n / 0x1_0000) && Be32(n)[2..] == Be16(n % 0x1_0000);
    Be16RoundTrip(n / 0x1_0000);
    Be16RoundTrip(n % 0x1_0000);
  }

  lemma FromBe16Bound(s: seq<byte>)
    requires |s| == 2
    ensures FromBe16(s) < 0x1_0000
  {
  }

  lemma SameDigits(a: nat, b: nat, c: nat, d: nat)
    requires b < 0x100 && d < 0x100 && a * 0x100 + b == c * 0x100 + d
    ensures a == c && b == d
  {
  }

  lemma FromBe16Injective(s: seq<byte>, t: seq<byte>)
    requires |s| == 2 && |t| == 2 && FromBe16(s) == FromBe16(t)
    ensures s == t
  {
    SameDigits(s[0] as nat, s[1] as nat, t[0] as nat, t[1] as nat);
    SameValue(s[0], t[0]);
    SameValue(s[1], t[1]);
  }

  lemma FromBe32Injective(s: seq<byte>, t: seq<byte>)
    requires |s| == 4 && |t| == 4 && FromBe32(s) == FromBe32(t)
    ensures s == t
  {
    FromBe16Bound(s[2..]);
    FromBe16Bound(t[2..]);
    FromBe16Injective(s[..2], t[..2]);
    FromBe16Injective(s[2..], t[2..]);
    assert s == s[..2] + s[2..] && t == t[..2] + t[2..];
  }
}
