/**
 The AmneziaWG datagram: a random padding prefix, a message whose type field is
 drawn from a configured range, optional header protection keyed by the
 prefix, and an optional random trailer. This module classifies and parses
 datagrams, builds them, and states when one side reads what the other wrote.
 */
module Wire {
  import opened Options
  import opened Bytes

  const TRANSPORT_HEADER_SZ: nat := 16
  const NONCE_SZ: nat := 12
  const MAX_PREFIX_DRAWS: nat := 8

  datatype HeaderRange = HeaderRange(start: nat, end: nat) {
    predicate Contains(v: nat) { start <= v <= end }

    predicate Overlaps(other: HeaderRange) { start <= other.end && other.start <= end }
  }

  datatype Kind = Init | Response | Cookie | Transport

  datatype Config = Config(
    padding: map<Kind, nat>,
    header: map<Kind, HeaderRange>,
    protection: Option<Keystream>,
    randomTrailers: bool)
  {
    /** The rules the configuration was validated against: disjoint type ranges, and room for the nonce. */
    ghost predicate Valid() {
      && (forall k: Kind :: k in padding && k in header)
      && (forall j: Kind, k: Kind :: j != k ==> !header[j].Overlaps(header[k]))
      && (protection.Some? ==> forall k: Kind :: padding[k] >= NONCE_SZ)
    }
  }

  function Size(k: Kind): nat {
    match k
    case Init => 148
    case Response => 92
    case Cookie => 64
    case Transport => 32
  }

  /** How much of the message header protection covers. */
  function ProtectedLen(k: Kind): nat {
    if k == Transport then TRANSPORT_HEADER_SZ else Size(k)
  }

  // ---- Classification ----

  /** The message type a receiver reads at offset `at`. */
  function TypeAt(c: Config, d: seq<byte>, at: nat): nat
    requires at + 4 <= |d|
  {
    var raw := d[at..at + 4];
    if c.protection.Some? && |d| >= NONCE_SZ
    then Le32(Masked(raw, 4, c.protection.value, d[..NONCE_SZ]))
    else Le32(raw)
  }

  predicate SizeFits(c: Config, k: Kind, n: nat)
    requires k in c.padding
  {
    if k == Transport || c.randomTrailers
    then n >= c.padding[k] + Size(k)
    else n == c.padding[k] + Size(k)
  }

  /** The candidate's size test and type test both succeed. */
  predicate Fits(c: Config, k: Kind, d: seq<byte>)
    requires k in c.padding && k in c.header
  {
    SizeFits(c, k, |d|) && c.header[k].Contains(TypeAt(c, d, c.padding[k]))
  }

  function Order(randomTrailers: bool): seq<Kind> {
    if randomTrailers then [Transport, Init, Response, Cookie] else [Init, Response, Cookie, Transport]
  }

  /** The first kind of `order` that fits, and nothing before it does. */
  function FirstFit(c: Config, order: seq<Kind>, d: seq<byte>): (r: Option<Kind>)
    requires forall k: Kind :: k in c.padding && k in c.header
    ensures r.Some? ==> r.value in order && Fits(c, r.value, d)
    ensures r.None? ==> forall k <- order :: !Fits(c, k, d)
  {
    if order == [] then None
    else if Fits(c, order[0], d) then Some(order[0])
    else FirstFit(c, order[1..], d)
  }

  function Classify(c: Config, d: seq<byte>): Option<Kind>
    requires forall k: Kind :: k in c.padding && k in c.header
  {
    FirstFit(c, Order(c.randomTrailers), d)
  }

  /** The keystream a receiver derives once per datagram: enough for the type test and a transport header. */
  function HeaderMask(c: Config, d: seq<byte>): Option<seq<byte>> {
    if c.protection.Some? && |d| >= NONCE_SZ
    then Some(seq(TRANSPORT_HEADER_SZ, i requires 0 <= i => c.protection.value(d[..NONCE_SZ], i)))
    else None
  }

  /** The message a datagram carries: prefix stripped, trailer trimmed, protection undone; untouched if nothing fits. */
  function Recovered(c: Config, d: seq<byte>): seq<byte>
    requires c.Valid()
  {
    match Classify(c, d)
    case None => d
    case Some(k) => Extract(c, k, d)
  }

  function Extract(c: Config, k: Kind, d: seq<byte>): seq<byte>
    requires c.Valid() && c.padding[k] + Size(k) <= |d|
  {
    var m := if k == Transport then d[c.padding[k]..] else d[c.padding[k]..c.padding[k] + Size(k)];
    if c.protection.Some? then Masked(m, ProtectedLen(k), c.protection.value, d[..NONCE_SZ]) else m
  }

  // ---- Parsing ----

  datatype Packet =
    | HandshakeInit(sender: seq<byte>, ephemeral: seq<byte>, encStatic: seq<byte>, encTimestamp: seq<byte>)
    | HandshakeResponse(sender: seq<byte>, receiver: seq<byte>, ephemeral: seq<byte>, encNothing: seq<byte>)
    | CookieReply(receiver: seq<byte>, nonce: seq<byte>, encCookie: seq<byte>)
    | PacketData(receiver: seq<byte>, counter: seq<byte>, encapsulated: seq<byte>)

  datatype Parsed = Ok(packet: Packet) | InvalidPacket

  function Parse(c: Config, m: seq<byte>): Parsed
    requires forall k: Kind :: k in c.header
  {
    if |m| < 4 then InvalidPacket else
    var t := Le32(m[0..4]);
    if c.header[Init].Contains(t) && |m| == Size(Init) then
      Ok(HandshakeInit(m[4..8], m[8..40], m[40..88], m[88..116]))
    else if c.header[Response].Contains(t) && |m| == Size(Response) then
      Ok(HandshakeResponse(m[4..8], m[8..12], m[12..44], m[44..60]))
    else if c.header[Cookie].Contains(t) && |m| == Size(Cookie) then
      Ok(CookieReply(m[4..8], m[8..32], m[32..64]))
    else if c.header[Transport].Contains(t) && |m| >= Size(Transport) then
      Ok(PacketData(m[4..8], m[8..16], m[16..]))
    else InvalidPacket
  }

  /** The fields of a parsed packet, as they lay in the message. */
  function Fields(p: Packet): seq<seq<byte>> {
    match p
    case HandshakeInit(sender, ephemeral, encStatic, encTimestamp) => [sender, ephemeral, encStatic, encTimestamp]
    case HandshakeResponse(sender, receiver, ephemeral, encNothing) => [sender, receiver, ephemeral, encNothing]
    case CookieReply(receiver, nonce, encCookie) => [receiver, nonce, encCookie]
    case PacketData(receiver, counter, encapsulated) => [receiver, counter, encapsulated]
  }

  function FieldSizes(p: Packet): seq<nat> {
    match p
    case HandshakeInit(_, _, _, _) => [4, 32, 48, 28]
    case HandshakeResponse(_, _, _, _) => [4, 4, 32, 16]
    case CookieReply(_, _, _) => [4, 24, 32]
    case PacketData(_, _, encapsulated) => [4, 8, |encapsulated|]
  }

  function Joined(parts: seq<seq<byte>>): seq<byte> {
    if parts == [] then [] else parts[0] + Joined(parts[1..])
  }

  lemma JoinedThree(a: seq<byte>, b: seq<byte>, c: seq<byte>)
    ensures Joined([a, b, c]) == a + b + c
  {
    assert [a, b, c][1..] == [b, c] && [b, c][1..] == [c] && [c][1..] == [];
    assert Joined([c]) == c;
    assert Joined([b, c]) == b + c;
  }

  lemma JoinedFour(a: seq<byte>, b: seq<byte>, c: seq<byte>, d: seq<byte>)
    ensures Joined([a, b, c, d]) == a + b + c + d
  {
    assert [a, b, c, d][1..] == [b, c, d];
    JoinedThree(b, c, d);
  }

  /** The fields of a packet have the right sizes and lie back to back in the message, after its type. */
  ghost predicate Partitions(p: Packet, m: seq<byte>) {
    && |Fields(p)| == |FieldSizes(p)|
    && (forall i :: 0 <= i < |Fields(p)| ==> |Fields(p)[i]| == FieldSizes(p)[i])
    && 4 + |Joined(Fields(p))| <= |m|
    && Joined(Fields(p)) == m[4..4 + |Joined(Fields(p))|]
    && (p.PacketData? ==> Joined(Fields(p)) == m[4..])
  }

  lemma FourPartition(p: Packet, m: seq<byte>, i: nat, j: nat, k: nat, n: nat)
    requires 4 <= i <= j <= k <= n <= |m| && !p.PacketData?
    requires Fields(p) == [m[4..i], m[i..j], m[j..k], m[k..n]] && FieldSizes(p) == [i - 4, j - i, k - j, n - k]
    ensures Partitions(p, m)
  {
    JoinedFour(m[4..i], m[i..j], m[j..k], m[k..n]);
    Adjoin(m, 4, i, j);
    Adjoin(m, 4, j, k);
    Adjoin(m, 4, k, n);
  }

  lemma ThreePartition(p: Packet, m: seq<byte>, i: nat, j: nat, n: nat)
    requires 4 <= i <= j <= n <= |m| && (p.PacketData? ==> n == |m|)
    requires Fields(p) == [m[4..i], m[i..j], m[j..n]] && FieldSizes(p) == [i - 4, j - i, n - j]
    ensures Partitions(p, m)
  {
    JoinedThree(m[4..i], m[i..j], m[j..n]);
    Adjoin(m, 4, i, j);
    Adjoin(m, 4, j, n);
    assert p.PacketData? ==> m[4..n] == m[4..];
  }

  /** Parsing cuts a message into its fields, leaving nothing out in between. */
  lemma ParsePartitions(c: Config, m: seq<byte>)
    requires (forall k: Kind :: k in c.header) && Parse(c, m).Ok?
    ensures Partitions(Parse(c, m).packet, m)
  {
    var p := Parse(c, m).packet;
    match p
    case HandshakeInit(_, _, _, _) => FourPartition(p, m, 8, 40, 88, 116);
    case HandshakeResponse(_, _, _, _) => FourPartition(p, m, 8, 12, 44, 60);
    case CookieReply(_, _, _) => ThreePartition(p, m, 8, 32, 64);
    case PacketData(_, _, _) =>
      assert m[16..] == m[16..|m|];
      ThreePartition(p, m, 8, 16, |m|);
  }

  // ---- The two receive paths ----

  /** XORs `buf[at..at + n]` with the keystream for `nonce`. */
  method ApplyInPlace(buf: array<byte>, at: nat, n: nat, ks: Keystream, nonce: seq<byte>)
    requires at + n <= buf.Length
    modifies buf
    ensures buf[..at] == old(buf[..at])
    ensures buf[at..] == Masked(old(buf[at..]), n, ks, nonce)
  {
    ghost var before := buf[..];
    for i := 0 to n
      invariant forall j :: 0 <= j < buf.Length ==>
                  buf[j] == if at <= j < at + i then Xor(before[j], ks(nonce, j - at)) else before[j]
    {
      buf[at + i] := Xor(buf[at + i], ks(nonce, i));
    }
  }

  /** XORs a transport header with a keystream that was derived earlier. */
  method MaskHeaderInPlace(buf: array<byte>, at: nat, mask: seq<byte>, ghost ks: Keystream, ghost nonce: seq<byte>)
    requires at + TRANSPORT_HEADER_SZ <= buf.Length && |mask| == TRANSPORT_HEADER_SZ
    requires forall i :: 0 <= i < TRANSPORT_HEADER_SZ ==> mask[i] == ks(nonce, i)
    modifies buf
    ensures buf[..at] == old(buf[..at])
    ensures buf[at..] == Masked(old(buf[at..]), TRANSPORT_HEADER_SZ, ks, nonce)
  {
    ghost var before := buf[..];
    for i := 0 to TRANSPORT_HEADER_SZ
      invariant forall j :: 0 <= j < buf.Length ==>
                  buf[j] == if at <= j < at + i then Xor(before[j], mask[j - at]) else before[j]
    {
      buf[at + i] := Xor(buf[at + i], mask[i]);
    }
  }

  /** A protected transport datagram parses as a data packet: its type lies in no other range. */
  lemma ProtectedTransportParses(c: Config, d: seq<byte>)
    requires c.Valid() && Classify(c, d) == Some(Transport)
    ensures |Recovered(c, d)| >= Size(Transport)
    ensures var m := Recovered(c, d);
      Parse(c, m) == Ok(PacketData(m[4..8], m[8..16], m[16..]))
  {
    var m, at := Recovered(c, d), c.padding[Transport];
    assert d[at..][0..4] == d[at..at + 4];
    if c.protection.Some? {
      MaskedTake(d[at..], TRANSPORT_HEADER_SZ, c.protection.value, d[..NONCE_SZ], 4);
      assert m[0..4] == Masked(d[at..at + 4], 4, c.protection.value, d[..NONCE_SZ]);
    }
    assert Le32(m[0..4]) == TypeAt(c, d, at);
  }

  lemma ExtractInPlace(c: Config, k: Kind, before: seq<byte>, after: seq<byte>, packetLen: nat, end: nat)
    requires c.Valid() && c.padding[k] + Size(k) <= packetLen <= |before| == |after|
    requires end == if k == Transport then packetLen else c.padding[k] + Size(k)
    requires after[c.padding[k]..] ==
               if c.protection.Some?
               then Masked(before[c.padding[k]..], ProtectedLen(k), c.protection.value, before[..NONCE_SZ])
               else before[c.padding[k]..]
    ensures after[c.padding[k]..end] == Extract(c, k, before[..packetLen])
  {
    var p := c.padding[k];
    DropTake(after, p, end - p);
    DropTake(before, p, end - p);
    TakeSlice(before, packetLen, p, end);
    assert k == Transport ==> before[..packetLen][p..] == before[..packetLen][p..end];
    if c.protection.Some? {
      MaskedTake(before[p..], ProtectedLen(k), c.protection.value, before[..NONCE_SZ], end - p);
      TakeSlice(before, packetLen, 0, NONCE_SZ);
      assert before[..packetLen][..NONCE_SZ] == before[..NONCE_SZ];
    }
  }

  lemma RecoveredFromPayload(c: Config, d: seq<byte>, k: Kind, payload: seq<byte>)
    requires c.Valid() && Classify(c, d) == Some(k)
    requires payload == if k == Transport then d[c.padding[k]..] else d[c.padding[k]..c.padding[k] + Size(k)]
    ensures c.protection.None? ==> Recovered(c, d) == payload
    ensures c.protection.Some? ==>
      Recovered(c, d) == Masked(payload, ProtectedLen(k), c.protection.value, d[..NONCE_SZ])
  {
  }

  /** The device's path: it owns the receive buffer and strips, decrypts and trims in place. */
  method DeviceReceive(c: Config, buf: array<byte>, packetLen: nat) returns (start: nat, end: nat)
    requires c.Valid() && packetLen <= buf.Length
    modifies buf
    ensures start <= end <= packetLen
    ensures buf[start..end] == Recovered(c, old(buf[..packetLen]))
  {
    var d := buf[..packetLen];
    ghost var whole := buf[..];
    assert d == whole[..packetLen];
    var k, mask := Classify(c, d), HeaderMask(c, d);
    var padding, protectedLen := 0, 0;
    if k.Some? {
      padding, protectedLen := c.padding[k.value], ProtectedLen(k.value);
    }
    var protected := if protectedLen <= packetLen - padding then protectedLen else packetLen - padding;
    if mask.Some? && protected == TRANSPORT_HEADER_SZ {
      // A transport header is exactly what the mask covers.
      assert d[..NONCE_SZ] == whole[..NONCE_SZ];
      MaskHeaderInPlace(buf, padding, mask.value, c.protection.value, whole[..NONCE_SZ]);
    } else if protected > 0 && c.protection.Some? {
      var prefix := buf[..padding];
      assert prefix[..NONCE_SZ] == whole[..NONCE_SZ];
      ApplyInPlace(buf, padding, protected, c.protection.value, prefix[..NONCE_SZ]);
    }
    start := padding;
    end := if k.Some? && k.value != Transport && padding + Size(k.value) <= packetLen
           then padding + Size(k.value) else packetLen;
    if k.Some? {
      assert buf[..][padding..] == buf[padding..] && whole[padding..] == old(buf[padding..]);
      ExtractInPlace(c, k.value, whole, buf[..], packetLen, end);
    }
  }

  /**
   What the tunnel's own path hands on: a message for the rate limiter, or a
   data packet assembled from its parts. An empty datagram is a call to flush
   the queue of packets waiting for a session.
   */
  datatype Handed = Stripped(message: seq<byte>) | Assembled(packet: Packet) | FlushQueue

  /** The tunnel's path: it only borrows the datagram, so it decrypts into buffers of its own. */
  method TunnReceive(c: Config, d: seq<byte>) returns (r: Handed)
    requires c.Valid()
    ensures r.FlushQueue? <==> d == []
    ensures r.Stripped? ==> r.message == Recovered(c, d)
    ensures r.Assembled? ==> r.packet.PacketData? && Parse(c, Recovered(c, d)) == Ok(r.packet)
  {
    if d == [] {
      return FlushQueue;
    }
    var k, mask := Classify(c, d), HeaderMask(c, d);
    var padding, protectedLen := 0, 0;
    if k.Some? {
      padding, protectedLen := c.padding[k.value], ProtectedLen(k.value);
    }
    var payload := d[padding..];
    if k.Some? && k.value != Transport && Size(k.value) <= |payload| {
      DropTake(d, padding, Size(k.value));
      payload := payload[..Size(k.value)];
    }
    if k.Some? {
      RecoveredFromPayload(c, d, k.value, payload);
    }
    if protectedLen == TRANSPORT_HEADER_SZ && mask.Some? {
      var packet := AssembleTransport(c, d, payload, mask.value);
      return Assembled(packet);
    }
    if c.protection.Some? && protectedLen > 0 {
      var decrypted := CopyOf(payload);
      ApplyInPlace(decrypted, 0, |payload|, c.protection.value, d[..NONCE_SZ]);
      assert decrypted[..] == decrypted[0..];
      return Stripped(decrypted[..]);
    }
    r := Stripped(payload);
  }

  /** Decrypts the header on the side and puts the data packet together without joining it to the ciphertext. */
  method AssembleTransport(c: Config, d: seq<byte>, payload: seq<byte>, mask: seq<byte>) returns (packet: Packet)
    requires c.Valid() && c.protection.Some? && Classify(c, d) == Some(Transport)
    requires payload == d[c.padding[Transport]..] && HeaderMask(c, d) == Some(mask)
    ensures packet.PacketData? && Parse(c, Recovered(c, d)) == Ok(packet)
  {
    var header := CopyOf(payload[..TRANSPORT_HEADER_SZ]);
    MaskHeaderInPlace(header, 0, mask, c.protection.value, d[..NONCE_SZ]);
    ghost var m := Recovered(c, d);
    assert m == Masked(payload, TRANSPORT_HEADER_SZ, c.protection.value, d[..NONCE_SZ]);
    MaskedTake(payload, TRANSPORT_HEADER_SZ, c.protection.value, d[..NONCE_SZ], TRANSPORT_HEADER_SZ);
    assert header[..] == header[0..] == m[..TRANSPORT_HEADER_SZ];
    ProtectedTransportParses(c, d);
    assert header[4..8] == m[4..8] && header[8..16] == m[8..16] && payload[16..] == m[16..];
    packet := PacketData(header[4..8], header[8..16], payload[TRANSPORT_HEADER_SZ..]);
  }

  method CopyOf(s: seq<byte>) returns (a: array<byte>)
    ensures fresh(a) && a[..] == s
  {
    a := new byte[|s|](i requires 0 <= i < |s| => s[i]);
  }

  /**
   The two paths agree on every datagram but the empty one: the tunnel's path
   either hands the limiter the very message the device's path hands it, or
   has assembled the data packet that message parses to; so both parse to the
   same packet or reject alike. The empty datagram, which the device's path
   rejects, makes the tunnel's flush its queue.
   */
  method ReceiveBothWays(c: Config, buf: array<byte>, packetLen: nat) returns (handed: Handed, message: seq<byte>)
    requires c.Valid() && packetLen <= buf.Length
    modifies buf
    ensures handed.FlushQueue? <==> packetLen == 0
    ensures handed.FlushQueue? ==> Parse(c, message) == InvalidPacket
    ensures handed.Stripped? ==> handed.message == message
    ensures handed.Assembled? ==> Parse(c, message) == Ok(handed.packet)
  {
    handed := TunnReceive(c, buf[..packetLen]);
    var start, end := DeviceReceive(c, buf, packetLen);
    message := buf[start..end];
  }

  // ---- Building a datagram ----

  function Protect(c: Config, k: Kind, prefix: seq<byte>, message: seq<byte>): (r: seq<byte>)
    requires c.protection.Some? ==> |prefix| >= NONCE_SZ
    ensures |r| == |message|
  {
    if c.protection.Some? then Masked(message, ProtectedLen(k), c.protection.value, prefix[..NONCE_SZ]) else message
  }

  function Datagram(c: Config, k: Kind, prefix: seq<byte>, message: seq<byte>, trailer: seq<byte>): seq<byte>
    requires c.protection.Some? ==> |prefix| >= NONCE_SZ
  {
    prefix + Protect(c, k, prefix, message) + trailer
  }

  /** What a sender under configuration `c` puts on the wire for a message of kind `k`. */
  ghost predicate Sendable(c: Config, k: Kind, prefix: seq<byte>, message: seq<byte>, trailer: seq<byte>) {
    && c.Valid()
    && |prefix| == c.padding[k]
    && (if k == Transport then |message| >= Size(k) else |message| == Size(k))
    && c.header[k].Contains(Le32(message[..4]))
    && (k == Transport || !c.randomTrailers ==> trailer == [])
  }

  lemma ProtectTake(c: Config, k: Kind, prefix: seq<byte>, message: seq<byte>)
    requires c.protection.Some? ==> |prefix| >= NONCE_SZ
    requires |message| >= Size(k)
    ensures Protect(c, k, prefix, message)[..4] ==
              if c.protection.Some? then Masked(message[..4], 4, c.protection.value, prefix[..NONCE_SZ])
              else message[..4]
  {
  }

  /** A receiver always reads the sender's type at the sender's offset. */
  lemma OwnKindFits(c: Config, k: Kind, prefix: seq<byte>, message: seq<byte>, trailer: seq<byte>)
    requires Sendable(c, k, prefix, message, trailer)
    ensures Fits(c, k, Datagram(c, k, prefix, message, trailer))
  {
    var d, at := Datagram(c, k, prefix, message, trailer), c.padding[k];
    ProtectTake(c, k, prefix, message);
    MiddleOfThree(prefix, Protect(c, k, prefix, message), trailer, 0, 4);
    assert d[at..at + 4] == Protect(c, k, prefix, message)[0..4] == Protect(c, k, prefix, message)[..4];
    if c.protection.Some? {
      assert d[..NONCE_SZ] == prefix[..NONCE_SZ];
      MaskedTwice(message[..4], 4, c.protection.value, prefix[..NONCE_SZ]);
    }
  }

  /** Read as what it is, a datagram gives back its message: trailer trimmed, ciphertext untouched. */
  lemma ExtractUndoesSending(c: Config, k: Kind, prefix: seq<byte>, message: seq<byte>, trailer: seq<byte>)
    requires Sendable(c, k, prefix, message, trailer)
    ensures Extract(c, k, Datagram(c, k, prefix, message, trailer)) == message
  {
    var d, at, m := Datagram(c, k, prefix, message, trailer), c.padding[k], Protect(c, k, prefix, message);
    assert k == Transport ==> d[at..] == m;
    assert k != Transport ==> d[at..at + Size(k)] == m;
    if c.protection.Some? {
      assert d[..NONCE_SZ] == prefix[..NONCE_SZ];
      MaskedTwice(message, ProtectedLen(k), c.protection.value, prefix[..NONCE_SZ]);
    }
  }

  /** Position of a kind among the candidates. */
  function Position(randomTrailers: bool, k: Kind): nat {
    match k
    case Transport => if randomTrailers then 0 else 3
    case Init => if randomTrailers then 1 else 0
    case Response => if randomTrailers then 2 else 1
    case Cookie => if randomTrailers then 3 else 2
  }

  lemma {:induction false} FirstFitAt(c: Config, order: seq<Kind>, d: seq<byte>, i: nat)
    requires c.Valid() && i < |order|
    requires forall m, n :: 0 <= m < n < |order| ==> order[m] != order[n]
    ensures FirstFit(c, order, d) == Some(order[i]) <==>
      (Fits(c, order[i], d) && forall j :: 0 <= j < i ==> !Fits(c, order[j], d))
  {
    if i > 0 {
      FirstFitAt(c, order[1..], d, i - 1);
      if forall j :: 0 <= j < i - 1 ==> !Fits(c, order[1..][j], d) {
        assert forall j :: 1 <= j < i ==> order[j] == order[1..][j - 1];
      } else {
        var j :| 0 <= j < i - 1 && Fits(c, order[1..][j], d);
        assert Fits(c, order[j + 1], d);
      }
    }
  }

  lemma OrderHasPositions(randomTrailers: bool, k: Kind)
    ensures |Order(randomTrailers)| == 4 && Position(randomTrailers, k) < 4
    ensures Order(randomTrailers)[Position(randomTrailers, k)] == k
    ensures forall m, n :: 0 <= m < n < 4 ==> Order(randomTrailers)[m] != Order(randomTrailers)[n]
  {
  }

  lemma PositionsAreOrdered(randomTrailers: bool)
    ensures forall k: Kind :: Position(randomTrailers, k) < 4 && Order(randomTrailers)[Position(randomTrailers, k)] == k
    ensures forall n :: 0 <= n < 4 ==> Position(randomTrailers, Order(randomTrailers)[n]) == n
  {
  }

  lemma ClassifyIsFirst(c: Config, d: seq<byte>, k: Kind)
    requires c.Valid()
    ensures Classify(c, d) == Some(k) <==>
      && Fits(c, k, d)
      && forall j: Kind :: Position(c.randomTrailers, j) < Position(c.randomTrailers, k) ==> !Fits(c, j, d)
  {
    var o, i := Order(c.randomTrailers), Position(c.randomTrailers, k);
    OrderHasPositions(c.randomTrailers, k);
    FirstFitAt(c, o, d, i);
    PositionsAreOrdered(c.randomTrailers);
    assert forall j: Kind :: Position(c.randomTrailers, j) < i ==> o[Position(c.randomTrailers, j)] == j;
  }

  lemma KindParses(c: Config, k: Kind, message: seq<byte>)
    requires if k == Transport then |message| >= Size(k) else |message| == Size(k)
    requires c.Valid() && c.header[k].Contains(Le32(message[..4]))
    ensures Parse(c, message).Ok?
    ensures match k
      case Init => Parse(c, message).packet.HandshakeInit?
      case Response => Parse(c, message).packet.HandshakeResponse?
      case Cookie => Parse(c, message).packet.CookieReply?
      case Transport => Parse(c, message).packet.PacketData?
  {
  }

  /**
   Wire round trip. A datagram is taken for another kind exactly when an
   earlier candidate passes its size test and its type test; otherwise the
   receiver recovers the exact message and parses it as what was sent. With
   trailers on no transport datagram is ever mistaken, with trailers off no
   initiation is.
   */
  lemma RoundTrip(c: Config, k: Kind, prefix: seq<byte>, message: seq<byte>, trailer: seq<byte>)
    requires Sendable(c, k, prefix, message, trailer)
    ensures var d := Datagram(c, k, prefix, message, trailer);
      && Classify(c, d).Some?
      && (Classify(c, d) != Some(k) <==>
            exists j: Kind :: Position(c.randomTrailers, j) < Position(c.randomTrailers, k) && Fits(c, j, d))
      && (Classify(c, d) == Some(k) ==> Recovered(c, d) == message && Parse(c, Recovered(c, d)).Ok?)
      && (k == (if c.randomTrailers then Transport else Init) ==> Classify(c, d) == Some(k))
  {
    var d := Datagram(c, k, prefix, message, trailer);
    OwnKindFits(c, k, prefix, message, trailer);
    ExtractUndoesSending(c, k, prefix, message, trailer);
    ClassifyIsFirst(c, d, k);
    KindParses(c, k, message);
  }

  /** Fills `dst[at..at + |s|]`. */
  method Fill(dst: array<byte>, at: nat, s: seq<byte>)
    requires at + |s| <= dst.Length
    modifies dst
    ensures dst[..at] == old(dst[..at])
    ensures dst[at..at + |s|] == s
    ensures dst[at + |s|..] == old(dst[at + |s|..])
  {
    ghost var before := dst[..];
    for i := 0 to |s|
      invariant forall j :: 0 <= j < dst.Length ==> dst[j] == if at <= j < at + i then s[j - at] else before[j]
    {
      dst[at + i] := s[i];
    }
  }

  /** Writes the prefix and the protected message: everything but the trailer. */
  method WriteProtected(c: Config, k: Kind, dst: array<byte>, prefix: seq<byte>, message: seq<byte>)
    requires k != Transport && Sendable(c, k, prefix, message, []) && |prefix| + |message| <= dst.Length
    modifies dst
    ensures dst[..|prefix| + |message|] == prefix + Protect(c, k, prefix, message)
  {
    var s, n := |prefix|, |message|;
    Fill(dst, s, message);
    DropTake(dst[..], s, n);
    assert dst[..][s..s + n] == dst[s..s + n] && dst[..][s..] == dst[s..];
    Fill(dst, 0, prefix);
    ghost var clear := dst[s..];
    assert clear[..n] == message && dst[..s] == prefix;
    if c.protection.Some? {
      ApplyInPlace(dst, s, n, c.protection.value, prefix[..NONCE_SZ]);
      MaskedTake(clear, n, c.protection.value, prefix[..NONCE_SZ], n);
    }
    assert dst[..s + n] == dst[..s] + dst[s..][..n];
  }

  /**
   Sends a handshake message: written after room for the prefix, prefix
   filled, message protected, trailer appended outside the protection.
   */
  method SendHandshake(c: Config, k: Kind, dst: array<byte>, prefix: seq<byte>, message: seq<byte>, trailer: seq<byte>)
    returns (sent: Option<nat>)
    requires k != Transport && Sendable(c, k, prefix, message, trailer)
    requires |trailer| <= if c.padding[k] + |message| <= dst.Length then dst.Length - c.padding[k] - |message| else 0
    modifies dst
    ensures sent.None? <==> c.padding[k] + |message| > dst.Length
    ensures sent.None? ==> dst[..] == old(dst[..])
    ensures sent.Some? ==> sent.value <= dst.Length && dst[..sent.value] == Datagram(c, k, prefix, message, trailer)
  {
    var n := c.padding[k] + |message|;
    if n > dst.Length {
      return None;
    }
    WriteProtected(c, k, dst, prefix, message);
    Fill(dst, n, trailer);
    sent := Some(n + |trailer|);
    assert dst[..n + |trailer|] == dst[..n] + dst[n..n + |trailer|];
  }
}
