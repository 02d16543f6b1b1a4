/**
 The Phobos codec: a length-dependent keystream, a random tail the receiver
 can find again, and a STUN or RTP frame around the payload.
 */
module Phobos {
  import opened Options
  import opened Bytes
  import opened Crc

  const MAX_KEY_LEN: nat := 255
  const DUMMY_LIMIT: nat := 1024
  const HANDSHAKE_DUMMY_LIMIT: nat := 512

  // ---- Keystream ----

  function Adjust(k: byte, base: byte): byte { k + base }

  /** The key as it is used for a region of `n` bytes. */
  function Adjusted(key: seq<byte>, n: nat): (r: seq<byte>)
    ensures |r| == |key|
  {
    seq(|key|, i requires 0 <= i < |key| => Adjust(key[i], ByteOf((n + |key|) % 0x100)))
  }

  /** The running CRC after byte `i` of `a`, which repeats. */
  function Chain(table: byte -> byte, a: seq<byte>, i: nat): byte {
    if a == [] then 0 else
    table(Xor(if i == 0 then 0 else Chain(table, a, i - 1), a[i % |a|]))
  }

  /** Keystream byte `i` for a region of `n` bytes. */
  function KeyByte(key: seq<byte>, n: nat, i: nat): byte {
    Chain(Entry8, Adjusted(key, n), i)
  }

  /** The first `i` bytes of `a` repeated without end. */
  function Repeated(a: seq<byte>, i: nat): (r: seq<byte>)
    requires a != []
    ensures |r| == i
  {
    seq(i, j requires 0 <= j < i => a[j % |a|])
  }

  /** A keystream byte is the bit-serial CRC-8 of the adjusted key repeated up to it. */
  lemma {:induction false} KeystreamIsCrc(a: seq<byte>, i: nat)
    requires a != []
    ensures Chain(Entry8, a, i) == Register8(Repeated(a, i + 1))
  {
    var r := Repeated(a, i + 1);
    assert r[..i] == Repeated(a, i);
    assert r[i] == a[i % |a|];
    EntryStep8(Register8(r[..i]), r[i]);
    if i > 0 {
      KeystreamIsCrc(a, i - 1);
    } else {
      assert r[..i] == [];
    }
  }

  lemma AdjustNext(k: byte, base: byte)
    ensures Adjust(k, Next(base)) == Next(Adjust(k, base)) && Adjust(k, 0) == k
  {
  }

  lemma NextWraps(b: byte)
    ensures Next(b) as nat == (b as nat + 1) % 0x100
  {
  }

  /** Byte addition wraps. */
  lemma {:induction false} AdjustAdds(k: byte, m: nat)
    requires m < 0x100
    ensures Adjust(k, ByteOf(m)) as nat == (k as nat + m) % 0x100
  {
    if m == 0 {
      AdjustNext(k, 0);
      ByteIsSmall(k);
    } else {
      AdjustAdds(k, m - 1);
      AdjustStep(k, m);
      NextWraps(Adjust(k, ByteOf(m - 1)));
      ModStep(k as nat + m - 1);
    }
  }

  lemma AdjustStep(k: byte, m: nat)
    requires 0 < m < 0x100
    ensures Adjust(k, ByteOf(m)) == Next(Adjust(k, ByteOf(m - 1)))
  {
  }

  lemma ByteIsSmall(b: byte)
    ensures b as nat == (b as nat) % 0x100
  {
  }

  lemma ModStep(x: nat)
    ensures (x % 0x100 + 1) % 0x100 == (x + 1) % 0x100
  {
  }

  lemma ModAdd(a: nat, b: nat)
    ensures (a + b % 0x100) % 0x100 == (a + b) % 0x100
  {
  }

  /** The key is shifted by the lengths of region and key, modulo 256: so the keystream depends on both. */
  lemma AdjustedValue(key: seq<byte>, n: nat, i: nat)
    requires i < |key|
    ensures Adjusted(key, n)[i] as nat == (key[i] as nat + n + |key|) % 0x100
  {
    AdjustAdds(key[i], (n + |key|) % 0x100);
    ModAdd(key[i] as nat, n + |key|);
  }

  /** The keystream for a region of `n` bytes; the key plays the part of the nonce. */
  function Stream(n: nat): Keystream {
    (key: seq<byte>, i: nat) => KeyByte(key, n, i)
  }

  /** A payload with its first `n` bytes masked as a region of that length. */
  function Mask(p: seq<byte>, n: nat, key: seq<byte>): (r: seq<byte>)
    ensures |r| == |p|
  {
    Masked(p, n, Stream(n), key)
  }

  method AdjustKey(key: seq<byte>, n: nat) returns (adjusted: array<byte>)
    requires 0 < |key| <= MAX_KEY_LEN
    ensures fresh(adjusted) && adjusted[..] == Adjusted(key, n)
  {
    var base := ByteOf((n + |key|) % 0x100);
    adjusted := new byte[|key|];
    for i := 0 to |key|
      invariant forall j :: 0 <= j < i ==> adjusted[j] == Adjusted(key, n)[j]
    {
      adjusted[i] := Adjust(key[i], base);
    }
  }

  method XorChain(buf: array<byte>, at: nat, n: nat, adjusted: array<byte>, table: byte -> byte)
    requires adjusted.Length > 0 && at + n <= buf.Length && buf != adjusted
    modifies buf
    ensures forall j :: 0 <= j < buf.Length ==>
              buf[j] == if at <= j < at + n then Xor(old(buf[j]), Chain(table, adjusted[..], j - at)) else old(buf[j])
  {
    ghost var before := buf[..];
    ghost var a := adjusted[..];
    var crc: byte := 0;
    for i := 0 to n
      invariant crc == if i == 0 then 0 else Chain(table, a, i - 1)
      invariant adjusted[..] == a
      invariant forall j :: 0 <= j < buf.Length ==>
                  buf[j] == if at <= j < at + i then Xor(before[j], Chain(table, a, j - at)) else before[j]
    {
      assert adjusted[i % adjusted.Length] == a[i % |a|];
      crc := table(Xor(crc, adjusted[i % adjusted.Length]));
      buf[at + i] := Xor(buf[at + i], crc);
    }
  }

  /** Masks `buf[at..at + n]` in place. */
  method ApplyKeystream(buf: array<byte>, at: nat, n: nat, key: seq<byte>)
    requires 0 < |key| <= MAX_KEY_LEN && at + n <= buf.Length
    modifies buf
    ensures forall j :: 0 <= j < buf.Length ==>
              buf[j] == if at <= j < at + n then Xor(old(buf[j]), KeyByte(key, n, j - at)) else old(buf[j])
  {
    var adjusted := AdjustKey(key, n);
    XorChain(buf, at, n, adjusted, Entry8);
  }

  // ---- Encoding ----

  predicate LooksPlain(s: seq<byte>) {
    |s| >= 4 && 1 <= s[0] <= 4 && s[1] == 0 && s[2] == 0 && s[3] == 0
  }

  predicate Partial(ob: nat, len: nat) { 0 < ob < len }

  /** How many bytes of a payload of `len` bytes are masked. */
  function MaskedLen(ob: nat, len: nat): (n: nat)
    ensures n <= len
  {
    if Partial(ob, len) then ob else len
  }

  /** Exclusive bound on the random tail; zero means no tail. */
  function TailBound(m: seq<byte>, maxDummy: nat, ob: nat): nat
    requires |m| >= 4
  {
    if Partial(ob, |m|) || |m| >= DUMMY_LIMIT then 0 else
    var room := if ob > 0 && ob - |m| + 1 < DUMMY_LIMIT - |m| then ob - |m| + 1 else DUMMY_LIMIT - |m|;
    var t := Le32(m[..4]);
    if t == 1 || t == 2 then Min(room, HANDSHAKE_DUMMY_LIMIT)
    else if (t == 3 || t == 4) && maxDummy > 0 then Min(room, maxDummy)
    else 0
  }

  function Min(a: nat, b: nat): nat { if a < b then a else b }

  /** The random draws of one encoding: the type mask, and the tail. */
  datatype Draw = Draw(r: byte, tail: seq<byte>)

  predicate Drawn(draw: Draw, m: seq<byte>, maxDummy: nat, ob: nat)
    requires |m| >= 4
  {
    && draw.r != 0
    && (if TailBound(m, maxDummy, ob) == 0 then draw.tail == [] else |draw.tail| < TailBound(m, maxDummy, ob))
  }

  /** A tail keeps the payload under both limits, so its length fits sixteen bits and masking stays whole. */
  lemma TailFits(draw: Draw, m: seq<byte>, maxDummy: nat, ob: nat)
    requires |m| >= 4 && Drawn(draw, m, maxDummy, ob)
    ensures |draw.tail| < 0x1_0000
    ensures |m| + |draw.tail| < DUMMY_LIMIT || draw.tail == []
    ensures Partial(ob, |m| + |draw.tail|) <==> Partial(ob, |m|)
  {
  }

  /** The payload before masking: type byte hidden, tail length in bytes 2 and 3. */
  function Payload(m: seq<byte>, draw: Draw): (p: seq<byte>)
    requires |m| >= 4 && |draw.tail| < 0x1_0000
    ensures |p| == |m| + |draw.tail|
  {
    m[0 := Xor(m[0], draw.r)][1 := draw.r][2 := ByteOf(|draw.tail| % 0x100)][3 := ByteOf(|draw.tail| / 0x100)]
    + draw.tail
  }

  function Encoded(m: seq<byte>, key: seq<byte>, ob: nat, draw: Draw): (p: seq<byte>)
    requires |m| >= 4 && |draw.tail| < 0x1_0000
    ensures |p| == |m| + |draw.tail|
  {
    Mask(Payload(m, draw), if Partial(ob, |m|) then ob else |m| + |draw.tail|, key)
  }

  /** The payload with the type byte restored and bytes 1 to 3 cleared. */
  function Restored(u: seq<byte>): (r: seq<byte>)
    requires |u| >= 4
    ensures |r| == |u|
  {
    u[0 := Xor(u[0], u[1])][1 := 0][2 := 0][3 := 0]
  }

  datatype Decoded = Decoded(buffer: seq<byte>, length: Option<nat>)

  function TailLength(lo: byte, hi: byte): nat { lo as nat + 0x100 * (hi as nat) }

  /** A payload that unmasks to something plain was never encoded, and is kept whole. */
  function Unmasked(u: seq<byte>): (d: Decoded)
    requires |u| >= 4
    ensures |d.buffer| == |u|
    ensures d.length.Some? ==> 4 <= d.length.value <= |u|
  {
    if LooksPlain(u) then Decoded(u, Some(|u|)) else
    var dummy := TailLength(u[2], u[3]);
    Decoded(Restored(u), if dummy + 4 <= |u| then Some(|u| - dummy) else None)
  }

  /** What decoding leaves in the buffer, and the message length it reports. */
  function Decode(p: seq<byte>, key: seq<byte>, ob: nat): (d: Decoded)
    ensures |d.buffer| == |p|
    ensures d.length.Some? ==> 4 <= d.length.value <= |p|
  {
    if |p| < 4 then Decoded(p, None) else
    Unmasked(Mask(p, MaskedLen(ob, |p|), key))
  }

  /** The message with bytes 1 to 3 cleared: all that an encoding carries of them. */
  function Cleared(m: seq<byte>): (r: seq<byte>)
    requires |m| >= 4
    ensures |r| == |m|
  {
    m[1 := 0][2 := 0][3 := 0]
  }

  lemma PayloadTail(m: seq<byte>, draw: Draw)
    requires |m| >= 4 && |draw.tail| < 0x1_0000
    ensures var u := Payload(m, draw); TailLength(u[2], u[3]) == |draw.tail|
  {
    ByteOfValue(|draw.tail| % 0x100);
    ByteOfValue(|draw.tail| / 0x100);
  }

  lemma PayloadRestores(m: seq<byte>, draw: Draw)
    requires |m| >= 4 && draw.r != 0 && |draw.tail| < 0x1_0000
    ensures Restored(Payload(m, draw)) == Cleared(m) + draw.tail
  {
    XorTwice(m[0], draw.r);
  }

  lemma PayloadUnmasks(m: seq<byte>, draw: Draw)
    requires |m| >= 4 && draw.r != 0 && |draw.tail| < 0x1_0000
    ensures Unmasked(Payload(m, draw)) == Decoded(Cleared(m) + draw.tail, Some(|m|))
  {
    PayloadTail(m, draw);
    PayloadRestores(m, draw);
  }

  lemma DecodeOfMask(u: seq<byte>, key: seq<byte>, ob: nat)
    requires |u| >= 4
    ensures Decode(Mask(u, MaskedLen(ob, |u|), key), key, ob) == Unmasked(u)
  {
    MaskedTwice(u, MaskedLen(ob, |u|), Stream(MaskedLen(ob, |u|)), key);
  }

  lemma SameRegion(m: seq<byte>, key: seq<byte>, ob: nat, draw: Draw)
    requires |m| >= 4 && |draw.tail| < 0x1_0000
    requires Partial(ob, |m| + |draw.tail|) <==> Partial(ob, |m|)
    ensures Encoded(m, key, ob, draw) == Mask(Payload(m, draw), MaskedLen(ob, |Payload(m, draw)|), key)
  {
  }

  /** For every key, draw, tail limit and masking limit, decoding undoes encoding up to bytes 1 to 3. */
  lemma DecodeUndoesEncode(m: seq<byte>, key: seq<byte>, maxDummy: nat, ob: nat, draw: Draw)
    requires |m| >= 4 && Drawn(draw, m, maxDummy, ob)
    ensures |draw.tail| < 0x1_0000
    ensures Decode(Encoded(m, key, ob, draw), key, ob) == Decoded(Cleared(m) + draw.tail, Some(|m|))
  {
    TailFits(draw, m, maxDummy, ob);
    SameRegion(m, key, ob, draw);
    PayloadUnmasks(m, draw);
    DecodeOfMask(Payload(m, draw), key, ob);
  }

  // ---- In place ----

  /** Masks the first `n` bytes of `buf[at..at + len]` in place. */
  method MaskInPlace(buf: array<byte>, at: nat, len: nat, n: nat, key: seq<byte>)
    requires n <= len && at + len <= buf.Length && 0 < |key| <= MAX_KEY_LEN
    modifies buf
    ensures buf[at..at + len] == Mask(old(buf[at..at + len]), n, key)
    ensures buf[..at] == old(buf[..at]) && buf[at + len..] == old(buf[at + len..])
  {
    ApplyKeystream(buf, at, n, key);
  }

  /** Masks the first `n` bytes of `v[start..]`. */
  method MaskVector(v: seq<byte>, start: nat, n: nat, key: seq<byte>) returns (out: seq<byte>)
    requires start <= start + n <= |v| && 0 < |key| <= MAX_KEY_LEN
    ensures out == v[..start] + Mask(v[start..], n, key)
  {
    var buf := new byte[|v|](i requires 0 <= i < |v| => v[i]);
    assert buf[..] == v && buf[..start] == v[..start] && buf[start..|v|] == v[start..];
    MaskInPlace(buf, start, |v| - start, n, key);
    out := buf[..];
    assert out == buf[..start] + buf[start..|v|];
  }

  lemma HeaderWritten(buf: seq<byte>, start: nat, draw: Draw)
    requires start + 4 <= |buf| && |draw.tail| < 0x1_0000
    ensures var h := buf[start := Xor(buf[start], draw.r)][start + 1 := draw.r]
                        [start + 2 := ByteOf(|draw.tail| % 0x100)][start + 3 := ByteOf(|draw.tail| / 0x100)];
      (h + draw.tail)[..start] == buf[..start] && (h + draw.tail)[start..] == Payload(buf[start..], draw)
  {
  }

  /** Encodes the message at `buf[start..]`, appending its tail. */
  method Encode(buf: seq<byte>, start: nat, key: seq<byte>, maxDummy: nat, ob: nat, draw: Draw) returns (out: seq<byte>)
    requires start + 4 <= |buf| && 0 < |key| <= MAX_KEY_LEN
    requires Drawn(draw, buf[start..], maxDummy, ob)
    ensures |draw.tail| < 0x1_0000
    ensures out == buf[..start] + Encoded(buf[start..], key, ob, draw)
  {
    TailFits(draw, buf[start..], maxDummy, ob);
    var len, dummy := |buf| - start, |draw.tail|;
    out := buf[start := Xor(buf[start], draw.r)][start + 1 := draw.r];
    out := out[start + 2 := ByteOf(dummy % 0x100)][start + 3 := ByteOf(dummy / 0x100)];
    out := out + draw.tail;
    HeaderWritten(buf, start, draw);
    out := MaskVector(out, start, if Partial(ob, len) then ob else len + dummy, key);
  }

  method RestoreInPlace(buf: array<byte>, at: nat, len: nat)
    requires 4 <= len && at + len <= buf.Length
    modifies buf
    ensures buf[at..at + len] == Restored(old(buf[at..at + len]))
    ensures buf[..at] == old(buf[..at]) && buf[at + len..] == old(buf[at + len..])
  {
    buf[at] := Xor(buf[at], buf[at + 1]);
    buf[at + 1], buf[at + 2], buf[at + 3] := 0, 0, 0;
  }

  method UnmaskedInPlace(buf: array<byte>, at: nat, len: nat) returns (length: Option<nat>)
    requires 4 <= len && at + len <= buf.Length
    modifies buf
    ensures Decoded(buf[at..at + len], length) == Unmasked(old(buf[at..at + len]))
    ensures buf[..at] == old(buf[..at]) && buf[at + len..] == old(buf[at + len..])
  {
    ghost var u := buf[at..at + len];
    if LooksPlain(buf[at..at + len]) {
      return Some(len);
    }
    assert u[2] == buf[at + 2] && u[3] == buf[at + 3];
    var dummy := TailLength(buf[at + 2], buf[at + 3]);
    RestoreInPlace(buf, at, len);
    length := if dummy + 4 <= len then Some(len - dummy) else None;
  }

  /** Decodes `buf[at..at + len]` in place and reports the message length. */
  method DecodeInPlace(buf: array<byte>, at: nat, len: nat, key: seq<byte>, ob: nat) returns (length: Option<nat>)
    requires at + len <= buf.Length && 0 < |key| <= MAX_KEY_LEN
    modifies buf
    ensures Decoded(buf[at..at + len], length) == Decode(old(buf[at..at + len]), key, ob)
    ensures buf[..at] == old(buf[..at]) && buf[at + len..] == old(buf[at + len..])
  {
    if len < 4 {
      return None;
    }
    MaskInPlace(buf, at, len, MaskedLen(ob, len), key);
    length := UnmaskedInPlace(buf, at, len);
  }
}
