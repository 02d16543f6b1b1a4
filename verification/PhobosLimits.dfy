/**
 What the Phobos codec takes for its own, and how long a random tail may be:
 exactly which STUN messages and RTP streams carry a payload for a receiver,
 and exactly which tail lengths a sender may draw.
 */
module PhobosLimits {
  import opened Bytes
  import opened Phobos
  import opened PhobosCodec

  // ---- Tails ----

  /** A tail of `n` bytes is allowed: never under partial masking, under both limits, and by the kind of message. */
  predicate TailAllowed(m: seq<byte>, maxDummy: nat, ob: nat, n: nat)
    requires |m| >= 4
  {
    var t := Le32(m[..4]);
    || n == 0
    || (&& !(0 < ob < |m|) && |m| + n < 1024 && (ob > 0 ==> |m| + n <= ob)
        && (((t == 1 || t == 2) && n < 512) || ((t == 3 || t == 4) && n < maxDummy)))
  }

  function SomeTail(n: nat): (t: seq<byte>)
    ensures |t| == n
  {
    seq(n, i => 0)
  }

  /** Exactly the allowed lengths can be drawn. */
  lemma TailExactly(m: seq<byte>, maxDummy: nat, ob: nat, n: nat)
    requires |m| >= 4
    ensures (exists draw :: Drawn(draw, m, maxDummy, ob) && |draw.tail| == n) <==> TailAllowed(m, maxDummy, ob, n)
  {
    if TailAllowed(m, maxDummy, ob, n) {
      var draw := Draw(1, SomeTail(n));
      assert draw.tail == [] <==> n == 0;
      assert Drawn(draw, m, maxDummy, ob) && |draw.tail| == n;
    }
  }

  // ---- RTP ----

  lemma MarkedInjective(a: byte, b: byte)
    requires a <= 127 && b <= 127
    ensures Unmarked(Marked(a)) == b <==> a == b
  {
  }

  lemma Be32Injective(a: nat, b: nat)
    requires a < 0x1_0000_0000 && b < 0x1_0000_0000
    ensures Be32(a) == Be32(b) <==> a == b
  {
    Be32RoundTrip(a);
    Be32RoundTrip(b);
  }

  /** A stream with fields of the right width, opened by anybody. */
  predicate Stream(s: RtpStream) {
    s.sequence < 0x1_0000 && s.timestamp < 0x1_0000_0000 && s.ssrc < 0x1_0000_0000 && s.payloadType <= 127
  }

  lemma HeaderFields(s: RtpStream, p: seq<byte>)
    requires Stream(s)
    ensures var d := s.Header() + p;
      d[0] == 0x80 && d[1] == Marked(s.payloadType) && d[4..8] == Be32(s.timestamp) && d[8..12] == Be32(s.ssrc)
  {
  }

  /**
   A receiver hears exactly the streams of the source and payload type it is
   set to, or of any where none is set, and no frame stamped like a STUN cookie.
   */
  lemma StreamHeardExactly(c: Config, s: RtpStream, p: seq<byte>, source: Source)
    requires c.Valid() && c.masking == Media && Stream(s) && |p| >= 4 && source.Valid()
    ensures var r := Locate(c, s.Header() + p, source);
      && (r == At(RTP_HEADER_LEN, |p|) <==>
            && s.timestamp != COOKIE && (c.ssrc == 0 || s.ssrc == c.ssrc)
            && (c.payloadType == 0 || s.payloadType == c.payloadType))
      && (r == At(RTP_HEADER_LEN, |p|) || r == Drop)
  {
    HeaderFields(s, p);
    CookieTimestamp(s.timestamp);
    MarkedInjective(s.payloadType, c.payloadType);
    MarkedIsUndone(s.payloadType);
    Be32Injective(s.ssrc, c.ssrc);
    RtpIsNotStun(s.Header() + p, source);
  }

  lemma VersionTwo(b: byte)
    ensures RtpVersion(b) <==> 0x80 <= b < 0xC0
  {
  }

  /** What is neither STUN nor RTP of version two is dropped, and so is what is too short for a frame and a message. */
  lemma ForeignIsDropped(c: Config, d: seq<byte>, source: Source)
    requires c.Valid() && c.masking == Media && source.Valid() && !HasStunCookie(d)
    requires |d| < RTP_HEADER_LEN + 4 || !(0x80 <= d[0] < 0xC0)
    ensures Locate(c, d, source) == Drop
  {
    if |d| > 0 { VersionTwo(d[0]); }
  }

  // ---- STUN ----

  /** A STUN message of any kind, whatever its length fields say. */
  function StunMessage(kind: seq<byte>, length: nat, txid: seq<byte>, attr: seq<byte>, n: nat, p: seq<byte>): seq<byte>
    requires |kind| == 2 && |txid| == 12 && |attr| == 2 && length < 0x1_0000 && n < 0x1_0000
  {
    kind + Be16(length) + COOKIE_BYTES + txid + attr + Be16(n) + p
  }

  lemma StunFields(kind: seq<byte>, length: nat, txid: seq<byte>, attr: seq<byte>, n: nat, p: seq<byte>)
    requires |kind| == 2 && |txid| == 12 && |attr| == 2 && length < 0x1_0000 && n < 0x1_0000
    ensures var d := StunMessage(kind, length, txid, attr, n, p);
      && |d| == STUN_DATA_HEADER_LEN + |p| && HasStunCookie(d) && d[0] == kind[0] && d[1] == kind[1] && d[0..2] == kind
      && d[20..22] == attr && FromBe16(d[2..4]) == length && FromBe16(d[22..24]) == n && d[8..20] == txid
  {
    var d := StunMessage(kind, length, txid, attr, n, p);
    assert d[2..4] == Be16(length) && d[22..24] == Be16(n) && d[4..8] == COOKIE_BYTES;
    Be16RoundTrip(length);
    Be16RoundTrip(n);
  }

  /**
   Of the STUN messages long enough to hold one attribute, a receiver takes a
   payload from exactly the Data Indications with a DATA attribute first and
   both length fields within the datagram.
   */
  lemma StunHeardExactly(
      c: Config, kind: seq<byte>, length: nat, txid: seq<byte>, attr: seq<byte>, n: nat, p: seq<byte>, source: Source)
    requires c.Valid() && c.masking != NoMasking && source.Valid()
    requires |kind| == 2 && |txid| == 12 && |attr| == 2 && length < 0x1_0000 && n < 0x1_0000
    ensures var r := Locate(c, StunMessage(kind, length, txid, attr, n, p), source);
      && (r.At? <==> kind == DATA_INDICATION && attr == ATTR_DATA && length <= |p| + 4 && n <= |p|)
      && (r.At? ==> r == At(STUN_DATA_HEADER_LEN, n))
      && (r.Reply? <==> kind == BINDING_REQUEST && source.Ip().Some?)
      && (r.Reply? ==> r == Reply(txid, source.Ip().value))
  {
    StunFields(kind, length, txid, attr, n, p);
  }

  /** Every datagram of that length with the cookie in place is such a message. */
  lemma StunComplete(d: seq<byte>)
    requires |d| >= STUN_DATA_HEADER_LEN && HasStunCookie(d)
    ensures FromBe16(d[2..4]) < 0x1_0000 && FromBe16(d[22..24]) < 0x1_0000
    ensures d == StunMessage(d[0..2], FromBe16(d[2..4]), d[8..20], d[20..22], FromBe16(d[22..24]), d[24..])
  {
    FromBe16Bound(d[2..4]);
    FromBe16Bound(d[22..24]);
    Be16RoundTrip(FromBe16(d[2..4]));
    Be16RoundTrip(FromBe16(d[22..24]));
    FromBe16Injective(d[2..4], Be16(FromBe16(d[2..4])));
    FromBe16Injective(d[22..24], Be16(FromBe16(d[22..24])));
    StunParts(d);
  }

  lemma StunParts(d: seq<byte>)
    requires |d| >= STUN_DATA_HEADER_LEN
    ensures d == d[0..2] + d[2..4] + d[4..8] + d[8..20] + d[20..22] + d[22..24] + d[24..]
  {
  }

  // ---- How much is masked ----

  /** Under RTP framing without a limit of its own, a longer message is sent in the clear after its first 16 bytes. */
  lemma SixteenByDefault(c: Config, m: seq<byte>, draw: Draw, txid: seq<byte>, s: RtpStream)
    requires Accepted(c, m, draw, txid, s) && c.masking == Media && c.obfuscateBytes == 0 && |m| > 16
    ensures |draw.tail| == 0 && Wrapped(c, m, draw, txid, s)[RTP_HEADER_LEN + 16..] == m[16..]
  {
    assert c.Limit() == 16 && Partial(16, |m|) && draw.tail == [];
    var e := Encoded(m, c.key, 16, draw);
    assert e[16..] == Payload(m, draw)[16..] == m[16..];
    assert Wrapped(c, m, draw, txid, s) == s.Header() + e;
  }

  // ---- The Binding Success ----

  lemma FinishedParts(packet: seq<byte>, length: byte)
    requires |packet| >= STUN_HEADER_LEN
    ensures var r := Finished(packet, length);
      && r[2] == packet[2] && r[3] == length && r[|packet|..] == FingerprintAttribute(packet)
      && FingerprintAttribute(packet)[..4] == [0x80, 0x28, 0, 4]
  {
  }

  lemma AddressStarts(ip: seq<byte>, port: nat)
    requires |ip| == 4 && port < 0x1_0000
    ensures MappedAddress(ip, port)[..6] == [0x00, 0x20, 0, 8, 0, 1]
  {
  }

  lemma Inside(r: seq<byte>, i: nat, j: nat, part: seq<byte>, k: nat)
    requires i <= j <= |r| && r[i..j] == part && k <= |part|
    ensures r[i..i + k] == part[..k]
  {
  }

  /** A reply is well-formed STUN: its length is that of its attributes, an IPv4 address and a fingerprint. */
  lemma SuccessIsWellFormed(txid: seq<byte>, ip: seq<byte>, port: nat)
    requires |txid| == 12 && |ip| == 4 && port < 0x1_0000
    ensures var r := BindingSuccess(txid, ip, port);
      && r[2] == 0 && r[3] == 20 && |r| == STUN_HEADER_LEN + 20
      && r[20..26] == [0x00, 0x20, 0, 8, 0, 1] && r[32..36] == [0x80, 0x28, 0, 4]
  {
    var h := StunHeader(BINDING_SUCCESS, txid) + MappedAddress(ip, port);
    var r := BindingSuccess(txid, ip, port);
    FinishedParts(h, 20);
    SuccessStarts(txid, ip, port);
    AddressStarts(ip, port);
    Inside(r, 20, 32, MappedAddress(ip, port), 6);
    Inside(r, 32, 40, FingerprintAttribute(h), 4);
  }
}
