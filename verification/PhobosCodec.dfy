/**
 The Phobos frames and the codec that puts a payload in one: STUN Data
 Indications (section 6 of RFC 5389), RTP packets (section 5.1 of RFC 3550),
 and the STUN Binding exchange beside them.
 */
module PhobosCodec {
  import opened Options
  import opened Bytes
  import opened Phobos
  import Crc

  const STUN_HEADER_LEN: nat := 20
  const STUN_DATA_HEADER_LEN: nat := 24
  const RTP_HEADER_LEN: nat := 12
  const COOKIE: nat := 0x2112_A442
  const COOKIE_BYTES: seq<byte> := [0x21, 0x12, 0xA4, 0x42]
  const BINDING_REQUEST: seq<byte> := [0x00, 0x01]
  const BINDING_SUCCESS: seq<byte> := [0x01, 0x01]
  const DATA_INDICATION: seq<byte> := [0x01, 0x15]
  const ATTR_XOR_MAPPED_ADDRESS: seq<byte> := [0x00, 0x20]
  const ATTR_FINGERPRINT: seq<byte> := [0x80, 0x28]
  const ATTR_DATA: seq<byte> := [0x00, 0x13]
  const FINGERPRINT_XOR: bv32 := 0x5354_554E

  datatype Masking = NoMasking | Stun | Media

  datatype Config = Config(
    key: seq<byte>, masking: Masking, maxDummy: nat, obfuscateBytes: nat,
    payloadType: byte, ssrc: nat, timestampStep: nat)
  {
    predicate Valid() {
      && 0 < |key| <= MAX_KEY_LEN
      && maxDummy <= DUMMY_LIMIT
      && obfuscateBytes < 0x8000_0000
      && payloadType <= 127
      && ssrc < 0x1_0000_0000
      && timestampStep < 0x1_0000
    }

    /** The masking limit in force. */
    function Limit(): nat {
      if obfuscateBytes == 0 && masking == Media then 16 else obfuscateBytes
    }
  }

  datatype Source = V4(ip: seq<byte>, port: nat) | V6(address: seq<byte>, port: nat) {
    predicate Valid() {
      port < 0x1_0000 && (if V4? then |ip| == 4 else |address| == 16)
    }

    /** The IPv4 address a reply names, if there is one. */
    function Ip(): (r: Option<seq<byte>>)
      requires Valid()
      ensures r.Some? ==> |r.value| == 4
    {
      if V4? then Some(ip)
      else if address[..10] == [0, 0, 0, 0, 0, 0, 0, 0, 0, 0] && address[10..12] == [255, 255] then Some(address[12..])
      else None
    }
  }

  // ---- STUN ----

  function StunHeader(kind: seq<byte>, txid: seq<byte>): (h: seq<byte>)
    requires |kind| == 2 && |txid| == 12
    ensures |h| == STUN_HEADER_LEN
  {
    kind + [0, 0] + COOKIE_BYTES + txid
  }

  function WordBytes(x: bv32): (s: seq<byte>)
    ensures |s| == 4
  {
    [((x >> 24) & 0xFF) as bv8, ((x >> 16) & 0xFF) as bv8, ((x >> 8) & 0xFF) as bv8, (x & 0xFF) as bv8]
  }

  function Fingerprint(packet: seq<byte>): bv32 {
    Crc.Mix(Crc.Crc32(packet), FINGERPRINT_XOR)
  }

  /** `packet`, whose length field is zero, with its FINGERPRINT appended and the length then set. */
  function Finished(packet: seq<byte>, length: byte): (r: seq<byte>)
    requires |packet| >= STUN_HEADER_LEN
    ensures |r| == |packet| + 8
  {
    packet[3 := length] + FingerprintAttribute(packet)
  }

  function BindingRequest(txid: seq<byte>): (r: seq<byte>)
    requires |txid| == 12
    ensures |r| == 28
  {
    Finished(StunHeader(BINDING_REQUEST, txid), 8)
  }

  function BindingSuccess(txid: seq<byte>, ip: seq<byte>, port: nat): (r: seq<byte>)
    requires |txid| == 12 && |ip| == 4 && port < 0x1_0000
    ensures |r| == 40
  {
    Finished(StunHeader(BINDING_SUCCESS, txid) + MappedAddress(ip, port), 20)
  }

  function MappedAddress(ip: seq<byte>, port: nat): (r: seq<byte>)
    requires |ip| == 4 && port < 0x1_0000
    ensures |r| == 12
  {
    ATTR_XOR_MAPPED_ADDRESS + [0, 8, 0, 1]
    + [Xor(Be16(port)[0], 0x21), Xor(Be16(port)[1], 0x12)]
    + [Xor(ip[0], 0x21), Xor(ip[1], 0x12), Xor(ip[2], 0xA4), Xor(ip[3], 0x42)]
  }

  predicate HasStunCookie(d: seq<byte>) { |d| >= 8 && d[4..8] == COOKIE_BYTES }

  /** Where a datagram's payload is, or what to do instead. */
  datatype Located =
    | At(offset: nat, len: nat)
    | Reply(txid: seq<byte>, ip: seq<byte>)
    | Drop

  function HandleStun(d: seq<byte>, source: Source): (r: Located)
    requires |d| >= 2 && source.Valid()
    ensures r.At? ==> r.offset + r.len <= |d|
    ensures r.Reply? ==> |r.txid| == 12 && |r.ip| == 4
  {
    if d[0..2] == BINDING_REQUEST then
      if |d| < STUN_HEADER_LEN || source.Ip().None? then Drop
      else Reply(d[8..20], source.Ip().value)
    else if d[0..2] == DATA_INDICATION then
      if |d| < STUN_DATA_HEADER_LEN
         || FromBe16(d[2..4]) + STUN_HEADER_LEN > |d|
         || d[20..22] != ATTR_DATA
         || FromBe16(d[22..24]) + STUN_DATA_HEADER_LEN > |d|
      then Drop
      else At(STUN_DATA_HEADER_LEN, FromBe16(d[22..24]))
    else Drop
  }

  // ---- RTP ----

  datatype RtpStream = RtpStream(sequence: nat, timestamp: nat, ssrc: nat, step: nat, payloadType: byte) {
    /** A stream this configuration may have opened. */
    predicate Serves(c: Config) {
      && sequence < 0x1_0000 && timestamp < 0x1_0000_0000 && ssrc < 0x1_0000_0000 && 0 < step < 0x1_0000
      && payloadType <= 127
      && (c.payloadType != 0 ==> payloadType == c.payloadType)
      && (c.ssrc != 0 ==> ssrc == c.ssrc)
      && (c.timestampStep != 0 ==> step == c.timestampStep)
    }

    function Header(): (h: seq<byte>)
      requires sequence < 0x1_0000 && timestamp < 0x1_0000_0000 && ssrc < 0x1_0000_0000
      ensures |h| == RTP_HEADER_LEN
    {
      [0x80, Marked(payloadType)] + Be16(sequence) + Be32(timestamp) + Be32(ssrc)
    }

    function Advanced(): RtpStream {
      this.(sequence := (sequence + 1) % 0x1_0000, timestamp := (timestamp + step) % 0x1_0000_0000)
    }
  }

  function Marked(payloadType: byte): byte { 0x80 | (payloadType & 0x7F) }

  function Unmarked(b: byte): byte { b & 0x7F }

  predicate RtpVersion(b: byte) { b & 0xC0 == 0x80 }

  lemma MarkedIsUndone(payloadType: byte)
    requires payloadType <= 127
    ensures Unmarked(Marked(payloadType)) == payloadType && RtpVersion(0x80)
  {
  }

  // ---- Receiving ----

  function Locate(c: Config, d: seq<byte>, source: Source): (r: Located)
    requires c.Valid() && source.Valid()
    ensures r.At? ==> r.offset + r.len <= |d|
    ensures r.Reply? ==> |r.txid| == 12 && |r.ip| == 4
  {
    if |d| < 4 || LooksPlain(d) then Drop else
    match c.masking
    case NoMasking => At(0, |d|)
    case Stun => if HasStunCookie(d) then HandleStun(d, source) else Drop
    case Media =>
      if HasStunCookie(d) then HandleStun(d, source)
      else if RtpAccepted(c, d) then At(RTP_HEADER_LEN, |d| - RTP_HEADER_LEN)
      else Drop
  }

  predicate RtpAccepted(c: Config, d: seq<byte>)
    requires c.Valid()
  {
    && |d| >= RTP_HEADER_LEN + 4
    && RtpVersion(d[0])
    && (c.payloadType == 0 || Unmarked(d[1]) == c.payloadType)
    && (c.ssrc == 0 || d[8..12] == Be32(c.ssrc))
  }

  /** What a received datagram amounts to. */
  datatype Received =
    | Message(bytes: seq<byte>)
    | Answer(txid: seq<byte>, ip: seq<byte>, port: nat) // the Binding Success for this transaction and address
    | Nothing

  function FromDecoded(r: Decoded): Received
    requires r.length.Some? ==> r.length.value <= |r.buffer|
  {
    if r.length.Some? then Message(r.buffer[..r.length.value]) else Nothing
  }

  function Delivered(c: Config, p: seq<byte>): Received {
    FromDecoded(Decode(p, c.key, c.Limit()))
  }

  function Delivering(c: Config): seq<byte> -> Received { p => Delivered(c, p) }

  function Opened(deliver: seq<byte> -> Received, d: seq<byte>, l: Located, port: nat): Received
    requires l.At? ==> l.offset + l.len <= |d|
  {
    match l
    case Drop => Nothing
    case Reply(txid, ip) => Answer(txid, ip, port)
    case At(offset, len) => deliver(d[offset..offset + len])
  }

  function Unwrapped(c: Config, d: seq<byte>, source: Source): Received
    requires c.Valid() && source.Valid()
  {
    Opened(Delivering(c), d, Locate(c, d, source), source.port)
  }

  // ---- Sending ----

  /** The frame in front of a payload of `n` bytes. */
  function Frame(c: Config, n: nat, txid: seq<byte>, s: RtpStream): seq<byte>
    requires |txid| == 12 && s.Serves(c)
    requires c.masking == Stun ==> n < 0x1_0000
  {
    match c.masking
    case NoMasking => []
    case Stun => StunHeader(DATA_INDICATION, txid) + ATTR_DATA + Be16(n)
    case Media => s.Header()
  }

  /** What a message is sent as. */
  function Wrapped(c: Config, m: seq<byte>, draw: Draw, txid: seq<byte>, s: RtpStream): seq<byte>
    requires |m| >= 4 && |draw.tail| < 0x1_0000 && |txid| == 12 && s.Serves(c)
    requires c.masking == Stun ==> |m| + |draw.tail| < 0x1_0000
  {
    Frame(c, |m| + |draw.tail|, txid, s) + Encoded(m, c.key, c.Limit(), draw)
  }

  /** A message a codec accepts, with the draws it made. */
  predicate Accepted(c: Config, m: seq<byte>, draw: Draw, txid: seq<byte>, s: RtpStream) {
    && c.Valid() && |m| >= 4 && (c.masking == Stun ==> |m| < 0x1_0000)
    && Drawn(draw, m, c.maxDummy, c.Limit())
    && |txid| == 12 && s.Serves(c)
  }

  /** The sixteen-bit length of a STUN frame never truncates. */
  lemma LengthFits(c: Config, m: seq<byte>, draw: Draw, txid: seq<byte>, s: RtpStream)
    requires Accepted(c, m, draw, txid, s)
    ensures |draw.tail| < 0x1_0000
    ensures c.masking == Stun ==> |m| + |draw.tail| < 0x1_0000
  {
  }

  // ---- Round trip ----

  lemma EncodedIsDelivered(c: Config, m: seq<byte>, draw: Draw, p: seq<byte>)
    requires |m| >= 4 && Drawn(draw, m, c.maxDummy, c.Limit()) && |draw.tail| < 0x1_0000
    requires p == Encoded(m, c.key, c.Limit(), draw)
    ensures Delivering(c)(p) == Message(Cleared(m))
  {
    DecodeUndoesEncode(m, c.key, c.maxDummy, c.Limit(), draw);
    assert (Cleared(m) + draw.tail)[..|m|] == Cleared(m);
  }

  lemma OpenedAt(deliver: seq<byte> -> Received, h: seq<byte>, p: seq<byte>, port: nat)
    ensures Opened(deliver, h + p, At(|h|, |p|), port) == deliver(p)
  {
    assert (h + p)[|h|..|h| + |p|] == p;
  }

  lemma StunLocates(c: Config, txid: seq<byte>, p: seq<byte>, source: Source)
    requires c.Valid() && c.masking == Stun && |txid| == 12 && |p| < 0x1_0000 && source.Valid()
    ensures Locate(c, StunHeader(DATA_INDICATION, txid) + ATTR_DATA + Be16(|p|) + p, source)
         == At(STUN_DATA_HEADER_LEN, |p|)
  {
    var d := StunHeader(DATA_INDICATION, txid) + ATTR_DATA + Be16(|p|) + p;
    assert d[0..2] == DATA_INDICATION && d[2..4] == [0, 0] && d[4..8] == COOKIE_BYTES;
    assert d[20..22] == ATTR_DATA && d[22..24] == Be16(|p|);
    Be16RoundTrip(|p|);
  }

  lemma CookieTimestamp(t: nat)
    requires t < 0x1_0000_0000
    ensures Be32(t) == COOKIE_BYTES <==> t == COOKIE
  {
    Be32RoundTrip(t);
    assert COOKIE_BYTES[..2] == [0x21, 0x12] && COOKIE_BYTES[2..] == [0xA4, 0x42];
    assert FromBe32(COOKIE_BYTES) == COOKIE;
    if t == COOKIE {
      FromBe32Injective(Be32(t), COOKIE_BYTES);
    }
  }

  lemma RtpHeaderAccepted(c: Config, s: RtpStream, p: seq<byte>)
    requires c.Valid() && s.Serves(c) && |p| >= 4
    ensures var d := s.Header() + p;
      d[0] == 0x80 && RtpAccepted(c, d) && (HasStunCookie(d) <==> s.timestamp == COOKIE)
  {
    var d := s.Header() + p;
    assert d[4..8] == Be32(s.timestamp) && d[8..12] == Be32(s.ssrc);
    assert d[0] == 0x80 && d[1] == Marked(s.payloadType);
    CookieTimestamp(s.timestamp);
    MarkedIsUndone(s.payloadType);
  }

  lemma RtpIsNotStun(d: seq<byte>, source: Source)
    requires |d| >= 2 && d[0] == 0x80 && source.Valid()
    ensures HandleStun(d, source) == Drop
  {
  }

  lemma MediaLocates(c: Config, s: RtpStream, p: seq<byte>, source: Source)
    requires c.masking == Media && c.Valid() && s.Serves(c) && |p| >= 4 && source.Valid()
    ensures Locate(c, s.Header() + p, source) == if s.timestamp == COOKIE then Drop else At(RTP_HEADER_LEN, |p|)
  {
    RtpHeaderAccepted(c, s, p);
    RtpIsNotStun(s.Header() + p, source);
  }

  /** What wrapping and unwrapping a message comes to. */
  function Arrives(c: Config, m: seq<byte>, d: seq<byte>, s: RtpStream): Received
    requires |m| >= 4
  {
    match c.masking
    case NoMasking => if LooksPlain(d) then Nothing else Message(Cleared(m))
    case Stun => Message(Cleared(m))
    case Media => if s.timestamp == COOKIE then Nothing else Message(Cleared(m))
  }

  /**
   The round trip, for every configuration, draw and message: under STUN the
   message always comes back, under RTP unless the timestamp is the STUN
   cookie, bare unless the encoded bytes look like plain WireGuard; otherwise
   nothing is delivered. What comes back is the message with bytes 1 to 3
   cleared.
   */
  lemma UnwrapUndoesWrap(c: Config, m: seq<byte>, draw: Draw, txid: seq<byte>, s: RtpStream, source: Source)
    requires Accepted(c, m, draw, txid, s) && source.Valid()
    ensures |draw.tail| < 0x1_0000 && (c.masking == Stun ==> |m| + |draw.tail| < 0x1_0000)
    ensures var d := Wrapped(c, m, draw, txid, s); Unwrapped(c, d, source) == Arrives(c, m, d, s)
  {
    LengthFits(c, m, draw, txid, s);
    var d := Wrapped(c, m, draw, txid, s);
    var p := Encoded(m, c.key, c.Limit(), draw);
    WrappedIs(c, m, draw, txid, s, p);
    EncodedIsDelivered(c, m, draw, p);
    PayloadOpens(c, m, p, d, txid, s, source);
  }

  lemma WrappedIs(c: Config, m: seq<byte>, draw: Draw, txid: seq<byte>, s: RtpStream, p: seq<byte>)
    requires |m| >= 4 && |draw.tail| < 0x1_0000 && |txid| == 12 && s.Serves(c)
    requires c.masking == Stun ==> |m| + |draw.tail| < 0x1_0000
    requires p == Encoded(m, c.key, c.Limit(), draw)
    ensures Wrapped(c, m, draw, txid, s) == Frame(c, |p|, txid, s) + p
  {
  }

  lemma PayloadOpens(
      c: Config, m: seq<byte>, p: seq<byte>, d: seq<byte>, txid: seq<byte>, s: RtpStream, source: Source)
    requires c.Valid() && |m| >= 4 && |p| >= 4 && |txid| == 12 && s.Serves(c) && source.Valid()
    requires c.masking == Stun ==> |p| < 0x1_0000
    requires Delivering(c)(p) == Message(Cleared(m)) && d == Frame(c, |p|, txid, s) + p
    ensures Unwrapped(c, d, source) == Arrives(c, m, d, s)
  {
    FrameOpens(c, Delivering(c), p, txid, s, source);
  }

  lemma FrameOpens(
      c: Config, deliver: seq<byte> -> Received, p: seq<byte>, txid: seq<byte>, s: RtpStream, source: Source)
    requires c.Valid() && |p| >= 4 && |txid| == 12 && s.Serves(c) && source.Valid()
    requires c.masking == Stun ==> |p| < 0x1_0000
    ensures var d := Frame(c, |p|, txid, s) + p;
      Opened(deliver, d, Locate(c, d, source), source.port) ==
        if (c.masking == NoMasking && LooksPlain(d)) || (c.masking == Media && s.timestamp == COOKIE)
        then Nothing else deliver(p)
  {
    var h := Frame(c, |p|, txid, s);
    OpenedAt(deliver, h, p, source.port);
    match c.masking
    case NoMasking => assert h + p == p;
    case Stun => StunLocates(c, txid, p, source);
    case Media => MediaLocates(c, s, p, source);
  }

  /** A message survives intact exactly when its bytes 1 to 3 are zero, as every WireGuard message's are. */
  lemma ClearedIsIdentity(m: seq<byte>)
    requires |m| >= 4
    ensures Cleared(m) == m <==> m[1..4] == [0, 0, 0]
  {
  }

  // ---- A stream of frames ----

  /** The stream's state when it writes frame `k`. */
  function Nth(s: RtpStream, k: nat): RtpStream {
    if k == 0 then s else Nth(s, k - 1).Advanced()
  }

  lemma {:induction false} NthTimestamp(s: RtpStream, k: nat)
    requires s.timestamp < 0x1_0000_0000
    ensures Nth(s, k).timestamp == (s.timestamp + k * s.step) % 0x1_0000_0000
    ensures Nth(s, k).step == s.step
  {
    if k > 0 {
      NthTimestamp(s, k - 1);
      StepOnce(s.timestamp, k, s.step);
    }
  }

  lemma {:induction false} NthSequence(c: Config, s: RtpStream, k: nat)
    requires s.Serves(c)
    ensures Nth(s, k).sequence == (s.sequence + k) % 0x1_0000
    ensures Nth(s, k).Serves(c)
  {
    if k > 0 {
      NthSequence(c, s, k - 1);
      AdvancedServes(c, Nth(s, k - 1));
      NextSequence(s.sequence + k - 1);
    }
  }

  lemma AdvancedServes(c: Config, s: RtpStream)
    requires s.Serves(c)
    ensures s.Advanced().Serves(c)
  {
  }

  lemma NextSequence(n: nat)
    ensures (n % 0x1_0000 + 1) % 0x1_0000 == (n + 1) % 0x1_0000
  {
  }

  lemma StepOnce(t: nat, k: nat, step: nat)
    requires k > 0
    ensures ((t + (k - 1) * step) % 0x1_0000_0000 + step) % 0x1_0000_0000 == (t + k * step) % 0x1_0000_0000
  {
  }

  /** What the header of frame `k` carries. */
  lemma FrameOnTheWire(c: Config, s: RtpStream, k: nat)
    requires s.Serves(c)
    ensures Nth(s, k).Serves(c)
    ensures var h := Nth(s, k).Header();
      && FromBe16(h[2..4]) == (s.sequence + k) % 0x1_0000
      && FromBe32(h[4..8]) == (s.timestamp + k * s.step) % 0x1_0000_0000
  {
    NthSequence(c, s, k);
    NthTimestamp(s, k);
    var n := Nth(s, k);
    assert n.Header()[2..4] == Be16(n.sequence) && n.Header()[4..8] == Be32(n.timestamp);
    Be16RoundTrip(n.sequence);
    Be32RoundTrip(n.timestamp);
  }

  /** Frame `k` of a stream is lost exactly when its timestamp, counted from the first, is the cookie. */
  lemma FrameIsLostIff(c: Config, s: RtpStream, k: nat, m: seq<byte>, draw: Draw, txid: seq<byte>, source: Source)
    requires c.masking == Media && Accepted(c, m, draw, txid, s) && source.Valid()
    ensures Nth(s, k).Serves(c) && |draw.tail| < 0x1_0000
    ensures var d := Wrapped(c, m, draw, txid, Nth(s, k));
      Unwrapped(c, d, source) ==
        if (s.timestamp + k * s.step) % 0x1_0000_0000 == COOKIE then Nothing else Message(Cleared(m))
  {
    NthTimestamp(s, k);
    NthSequence(c, s, k);
    UnwrapUndoesWrap(c, m, draw, txid, Nth(s, k), source);
  }

  lemma TimestampsDiffer(c: Config, s: RtpStream, j: nat, k: nat)
    requires s.Serves(c) && j < k <= j + 0x1_0000
    ensures (s.timestamp + j * s.step) % 0x1_0000_0000 != (s.timestamp + k * s.step) % 0x1_0000_0000
  {
    ProductsApart(s.timestamp, j, k, s.step);
  }

  /** Of any 65537 frames in a row, whatever they carry, at most one is lost. */
  lemma LossesAreFarApart(c: Config, s: RtpStream, j: nat, k: nat, source: Source,
      m: seq<byte>, draw: Draw, txid: seq<byte>, m': seq<byte>, draw': Draw, txid': seq<byte>)
    requires c.masking == Media && j < k <= j + 0x1_0000 && source.Valid()
    requires Accepted(c, m, draw, txid, s) && Accepted(c, m', draw', txid', s)
    ensures Nth(s, j).Serves(c) && Nth(s, k).Serves(c) && |draw.tail| < 0x1_0000 && |draw'.tail| < 0x1_0000
    ensures Unwrapped(c, Wrapped(c, m, draw, txid, Nth(s, j)), source) == Message(Cleared(m))
         || Unwrapped(c, Wrapped(c, m', draw', txid', Nth(s, k)), source) == Message(Cleared(m'))
  {
    FrameIsLostIff(c, s, j, m, draw, txid, source);
    FrameIsLostIff(c, s, k, m', draw', txid', source);
    TimestampsDiffer(c, s, j, k);
  }

  lemma ProductsApart(t: nat, j: nat, k: nat, step: nat)
    requires j < k <= j + 0x1_0000 && 0 < step < 0x1_0000
    ensures (t + j * step) % 0x1_0000_0000 != (t + k * step) % 0x1_0000_0000
  {
    Distribute(j, k, step);
    Bounded(k - j, step);
    Apart(t + j * step, (k - j) * step);
  }

  lemma Distribute(j: nat, k: nat, step: nat)
    requires j <= k
    ensures (k - j) * step == k * step - j * step
  {
  }

  lemma Bounded(n: nat, step: nat)
    requires 0 < n <= 0x1_0000 && 0 < step < 0x1_0000
    ensures 0 < n * step < 0x1_0000_0000
  {
  }

  lemma Apart(t: nat, n: nat)
    requires 0 < n < 0x1_0000_0000
    ensures t % 0x1_0000_0000 != (t + n) % 0x1_0000_0000
  {
  }

  // ---- The Binding exchange ----

  /** The address a Binding Success names. */
  function NamedIp(r: seq<byte>): seq<byte>
    requires |r| == 40
  {
    [Xor(r[28], 0x21), Xor(r[29], 0x12), Xor(r[30], 0xA4), Xor(r[31], 0x42)]
  }

  function NamedPort(r: seq<byte>): nat
    requires |r| == 40
  {
    FromBe16([Xor(r[26], 0x21), Xor(r[27], 0x12)])
  }

  lemma PatchedKeeps(packet: seq<byte>, length: byte, tail: seq<byte>, i: nat, j: nat)
    requires i <= j <= |packet| && |packet| > 3 && (j <= 3 || 4 <= i)
    ensures (packet[3 := length] + tail)[i..j] == packet[i..j]
  {
  }

  function FingerprintAttribute(packet: seq<byte>): (r: seq<byte>)
    ensures |r| == 8
  {
    ATTR_FINGERPRINT + [0, 4] + WordBytes(Fingerprint(packet))
  }

  /** Appending the FINGERPRINT changes nothing before it but the length. */
  lemma FinishedKeeps(packet: seq<byte>, length: byte, i: nat, j: nat)
    requires |packet| >= STUN_HEADER_LEN && i <= j <= |packet| && (j <= 3 || 4 <= i)
    ensures Finished(packet, length)[i..j] == packet[i..j]
  {
    PatchedKeeps(packet, length, FingerprintAttribute(packet), i, j);
  }

  lemma StunParts(kind: seq<byte>, txid: seq<byte>, rest: seq<byte>)
    requires |kind| == 2 && |txid| == 12
    ensures var h := StunHeader(kind, txid) + rest;
      h[0..2] == kind && h[4..8] == COOKIE_BYTES && h[8..20] == txid && h[20..|h|] == rest
  {
  }

  lemma RequestIsAnswered(c: Config, d: seq<byte>, source: Source)
    requires c.Valid() && c.masking != NoMasking && |d| >= STUN_HEADER_LEN && source.Valid()
    requires d[0..2] == BINDING_REQUEST && HasStunCookie(d)
    ensures Unwrapped(c, d, source) ==
              if source.Ip().None? then Nothing else Answer(d[8..20], source.Ip().value, source.port)
  {
  }

  lemma SuccessIsDropped(c: Config, d: seq<byte>, source: Source)
    requires c.Valid() && c.masking != NoMasking && |d| >= STUN_HEADER_LEN && source.Valid()
    requires d[0..2] == BINDING_SUCCESS && HasStunCookie(d)
    ensures Unwrapped(c, d, source) == Nothing
  {
  }

  /**
   A Binding Request is answered with its own transaction, naming where it
   came from, unless it came from an IPv6 address; and an answer is never
   answered, so two ends never bounce control traffic.
   */
  lemma BindingExchange(c: Config, txid: seq<byte>, source: Source, other: Source)
    requires c.Valid() && c.masking != NoMasking && |txid| == 12 && source.Valid() && other.Valid()
    ensures var got := Unwrapped(c, BindingRequest(txid), source);
      if source.Ip().None? then got == Nothing
      else
        && got == Answer(txid, source.Ip().value, source.port)
        && Unwrapped(c, BindingSuccess(txid, source.Ip().value, source.port), other) == Nothing
  {
    RequestStarts(txid);
    RequestIsAnswered(c, BindingRequest(txid), source);
    if source.Ip().Some? {
      SuccessStarts(txid, source.Ip().value, source.port);
      SuccessIsDropped(c, BindingSuccess(txid, source.Ip().value, source.port), other);
    }
  }

  lemma RequestStarts(txid: seq<byte>)
    requires |txid| == 12
    ensures var d := BindingRequest(txid); d[0..2] == BINDING_REQUEST && HasStunCookie(d) && d[8..20] == txid
  {
  }

  lemma SuccessStarts(txid: seq<byte>, ip: seq<byte>, port: nat)
    requires |txid| == 12 && |ip| == 4 && port < 0x1_0000
    ensures var d := BindingSuccess(txid, ip, port);
      && d[0..2] == BINDING_SUCCESS && HasStunCookie(d) && d[8..20] == txid && d[20..32] == MappedAddress(ip, port)
  {
    var h := StunHeader(BINDING_SUCCESS, txid) + MappedAddress(ip, port);
    StunParts(BINDING_SUCCESS, txid, MappedAddress(ip, port));
    FinishedKeeps(h, 20, 0, 2);
    FinishedKeeps(h, 20, 4, 8);
    FinishedKeeps(h, 20, 8, 20);
    FinishedKeeps(h, 20, 20, 32);
  }

  lemma MappedAddressNames(ip: seq<byte>, port: nat)
    requires |ip| == 4 && port < 0x1_0000
    ensures var a := MappedAddress(ip, port);
      && [Xor(a[8], 0x21), Xor(a[9], 0x12), Xor(a[10], 0xA4), Xor(a[11], 0x42)] == ip
      && [Xor(a[6], 0x21), Xor(a[7], 0x12)] == Be16(port)
  {
  }

  /** The reply carries the request's transaction and the address and port it came from. */
  lemma AnswerNamesTheSource(txid: seq<byte>, ip: seq<byte>, port: nat)
    requires |txid| == 12 && |ip| == 4 && port < 0x1_0000
    ensures var r := BindingSuccess(txid, ip, port);
      r[8..20] == txid && NamedIp(r) == ip && NamedPort(r) == port
  {
    var r, a := BindingSuccess(txid, ip, port), MappedAddress(ip, port);
    SuccessStarts(txid, ip, port);
    AddressAt(r, a);
    MappedAddressNames(ip, port);
    Be16RoundTrip(port);
  }

  lemma AddressAt(r: seq<byte>, a: seq<byte>)
    requires |r| == 40 && r[20..32] == a
    ensures NamedIp(r) == [Xor(a[8], 0x21), Xor(a[9], 0x12), Xor(a[10], 0xA4), Xor(a[11], 0x42)]
    ensures NamedPort(r) == FromBe16([Xor(a[6], 0x21), Xor(a[7], 0x12)])
  {
  }

  lemma PatchUndone(packet: seq<byte>, length: byte, tail: seq<byte>)
    requires |packet| > 3
    ensures var r := packet[3 := length] + tail;
      r[..|packet|][3 := packet[3]] == packet && r[|packet|..] == tail && r[3] == length
  {
  }

  /** The FINGERPRINT is the bit-serial CRC of everything before it, with the length field still zero. */
  lemma FingerprintCoversZeroLength(packet: seq<byte>, length: byte)
    requires |packet| >= STUN_HEADER_LEN && packet[3] == 0
    ensures var r, n := Finished(packet, length), |packet|;
      && r[3] == length
      && r[n..] == ATTR_FINGERPRINT + [0, 4]
                   + WordBytes(Crc.Mix(Crc.Not(Crc.Register(r[..n][3 := 0])), FINGERPRINT_XOR))
  {
    PatchUndone(packet, length, FingerprintAttribute(packet));
    Crc.TableIsRegister(packet);
  }

  // ---- The codec ----

  /** The draws of one `Wrap`: the encoding's, two transaction ids, and a stream to open. */
  datatype Draws = Draws(encoding: Draw, requestId: seq<byte>, txid: seq<byte>, stream: RtpStream)

  /** `request` is the transaction of the Binding Request to send first. */
  datatype WrapResult = Sent(out: seq<byte>, request: Option<seq<byte>>) | TooShort | TooLong

  /** What unwrapping leaves the caller to do; the reply is the `BindingSuccess` of its parts. */
  datatype Unwrap = WireGuard(offset: nat, len: nat) | SendReply(txid: seq<byte>, ip: seq<byte>, port: nat) | Ignore

  /** What an unwrapped buffer must show for what was received. */
  ghost predicate Shows(got: Received, r: Unwrap, buf: seq<byte>) {
    match got
    case Message(m) => r.WireGuard? && r.offset + r.len <= |buf| && buf[r.offset..r.offset + r.len] == m
    case Answer(txid, ip, port) => |txid| == 12 && |ip| == 4 && port < 0x1_0000 && r == SendReply(txid, ip, port)
    case Nothing => r == Ignore
  }

  lemma ShowsDecoded(buf: seq<byte>, offset: nat, d: Decoded)
    requires offset + |d.buffer| <= |buf| && buf[offset..offset + |d.buffer|] == d.buffer
    requires d.length.Some? ==> d.length.value <= |d.buffer|
    ensures Shows(FromDecoded(d), if d.length.Some? then WireGuard(offset, d.length.value) else Ignore, buf)
  {
  }

  lemma OpenedSlice(deliver: seq<byte> -> Received, d: seq<byte>, offset: nat, len: nat, port: nat)
    requires offset + len <= |d|
    ensures Opened(deliver, d, At(offset, len), port) == deliver(d[offset..offset + len])
  {
  }

  lemma SameSlice(a: array<byte>, offset: nat, len: nat)
    requires offset + len <= a.Length
    ensures a[..][offset..offset + len] == a[offset..offset + len]
  {
  }

  class Codec {
    const config: Config
    var rtp: Option<RtpStream>

    ghost predicate Valid()
      reads this
    {
      config.Valid() && (rtp.Some? ==> rtp.value.Serves(config))
    }

    constructor (config: Config)
      requires config.Valid()
      ensures Valid() && this.config == config && rtp == None
    {
      this.config := config;
      rtp := None;
    }

    /** The stream the next frame belongs to. */
    ghost function Current(draws: Draws): RtpStream
      reads this
    {
      if rtp.Some? then rtp.value else draws.stream
    }

    /** Writes an RTP header, opening the stream if this is its first frame. */
    method WriteRtpHeader(draws: Draws) returns (h: seq<byte>)
      requires Valid() && draws.stream.Serves(config)
      modifies this`rtp
      ensures Valid()
      ensures h == old(Current(draws)).Header() && rtp == Some(old(Current(draws)).Advanced())
    {
      if rtp.None? {
        rtp := Some(draws.stream);
      }
      h := rtp.value.Header();
      rtp := Some(rtp.value.Advanced());
    }

    /**
     Wraps a message. Refused messages change nothing; a sent one is
     `Wrapped`, announced by a Binding Request exactly for a framed handshake
     initiation, and only an RTP frame advances the stream.
     */
    method Wrap(datagram: seq<byte>, draws: Draws) returns (r: WrapResult)
      requires Valid() && draws.stream.Serves(config) && |draws.requestId| == 12 && |draws.txid| == 12
      requires |datagram| >= 4 ==> Drawn(draws.encoding, datagram, config.maxDummy, config.Limit())
      modifies this`rtp
      ensures Valid()
      ensures r.TooShort? <==> |datagram| < 4
      ensures r.TooLong? <==> config.masking == Stun && |datagram| > 65535
      ensures !r.Sent? ==> rtp == old(rtp)
      ensures r.Sent? ==>
        && Accepted(config, datagram, draws.encoding, draws.txid, old(Current(draws)))
        && |draws.encoding.tail| < 0x1_0000
        && (config.masking == Stun ==> |datagram| + |draws.encoding.tail| < 0x1_0000)
        && r.out == Wrapped(config, datagram, draws.encoding, draws.txid, old(Current(draws)))
        && r.request ==
             (if config.masking != NoMasking && Le32(datagram[..4]) == 1 then Some(draws.requestId) else None)
        && rtp == (if config.masking == Media then Some(old(Current(draws)).Advanced()) else old(rtp))
    {
      if |datagram| < 4 {
        return TooShort;
      }
      if config.masking == Stun && |datagram| > 65535 {
        return TooLong;
      }
      LengthFits(config, datagram, draws.encoding, draws.txid, Current(draws));
      var request := if Le32(datagram[..4]) == 1 && config.masking != NoMasking then Some(draws.requestId) else None;
      var p := EncodeMessage(datagram, draws.encoding);
      var h := WriteFrame(|p|, draws);
      r := Sent(h + p, request);
    }

    method EncodeMessage(datagram: seq<byte>, draw: Draw) returns (p: seq<byte>)
      requires config.Valid() && |datagram| >= 4 && Drawn(draw, datagram, config.maxDummy, config.Limit())
      ensures |draw.tail| < 0x1_0000
      ensures p == Encoded(datagram, config.key, config.Limit(), draw)
    {
      assert datagram[0..] == datagram;
      p := Encode(datagram, 0, config.key, config.maxDummy, config.Limit(), draw);
    }

    method WriteFrame(n: nat, draws: Draws) returns (h: seq<byte>)
      requires Valid() && draws.stream.Serves(config) && |draws.txid| == 12
      requires config.masking == Stun ==> n < 0x1_0000
      modifies this`rtp
      ensures Valid()
      ensures h == Frame(config, n, draws.txid, old(Current(draws)))
      ensures rtp == if config.masking == Media then Some(old(Current(draws)).Advanced()) else old(rtp)
    {
      match config.masking {
        case NoMasking => h := [];
        case Stun => h := StunHeader(DATA_INDICATION, draws.txid) + ATTR_DATA + Be16(n);
        case Media => h := WriteRtpHeader(draws);
      }
    }

    method Deliver(datagram: array<byte>, offset: nat, len: nat) returns (r: Unwrap)
      requires config.Valid() && offset + len <= datagram.Length
      modifies datagram
      ensures Shows(Delivering(config)(old(datagram[offset..offset + len])), r, datagram[..])
    {
      ghost var d := Decode(datagram[offset..offset + len], config.key, config.Limit());
      var length := DecodeInPlace(datagram, offset, len, config.key, config.Limit());
      r := if length.Some? then WireGuard(offset, length.value) else Ignore;
      assert datagram[..][offset..offset + len] == datagram[offset..offset + len];
      ShowsDecoded(datagram[..], offset, d);
    }

    method Open(datagram: array<byte>, l: Located, port: nat) returns (r: Unwrap)
      requires config.Valid() && port < 0x1_0000
      requires l.At? ==> l.offset + l.len <= datagram.Length
      requires l.Reply? ==> |l.txid| == 12 && |l.ip| == 4
      modifies datagram
      ensures Shows(Opened(Delivering(config), old(datagram[..]), l, port), r, datagram[..])
    {
      match l {
        case Drop => r := Ignore;
        case Reply(txid, ip) => r := SendReply(txid, ip, port);
        case At(offset, len) =>
          OpenedSlice(Delivering(config), datagram[..], offset, len, port);
          SameSlice(datagram, offset, len);
          r := Deliver(datagram, offset, len);
      }
    }

    /** Unwraps a datagram in place: what it delivers lies in the buffer. */
    method UnwrapInPlace(datagram: array<byte>, source: Source) returns (r: Unwrap)
      requires Valid() && source.Valid()
      modifies datagram
      ensures Shows(Unwrapped(config, old(datagram[..]), source), r, datagram[..])
    {
      r := Open(datagram, Locate(config, datagram[..], source), source.port);
    }
  }
}
