/**
 Sending a transport datagram past a peer that tests the handshake kinds
 first: the prefix is redrawn, at most eight times, until that peer would not
 take the datagram for a handshake.
 */
module PrefixRedraw {
  import opened Options
  import opened Bytes
  import opened Wire

  /** The decision of a peer that always tries init, response and cookie before transport. */
  function PeerKind(c: Config, d: seq<byte>): Option<Kind>
    requires forall k: Kind :: k in c.padding && k in c.header
  {
    FirstFit(c, [Init, Response, Cookie, Transport], d)
  }

  predicate PeerSeesHandshake(c: Config, d: seq<byte>)
    requires forall k: Kind :: k in c.padding && k in c.header
  {
    PeerKind(c, d).Some? && PeerKind(c, d).value != Transport
  }

  function XorMask(s: seq<byte>, mask: seq<byte>): (r: seq<byte>)
    requires |s| == |mask|
    ensures |r| == |s|
  {
    seq(|s|, i requires 0 <= i < |s| => Xor(s[i], mask[i]))
  }

  /** One candidate's test with a mask already at hand. */
  predicate Collides(c: Config, k: Kind, d: seq<byte>, mask: seq<byte>)
    requires k in c.padding && k in c.header && |mask| == 4
  {
    var p, expected := c.padding[k], c.padding[k] + Size(k);
    && (|d| == expected || (c.randomTrailers && |d| > expected))
    && p + 4 <= |d|
    && c.header[k].Contains(Le32(XorMask(d[p..p + 4], mask)))
  }

  predicate PeerWouldMisclassify(c: Config, d: seq<byte>, mask: seq<byte>)
    requires (forall k: Kind :: k in c.padding && k in c.header) && |mask| == 4
  {
    Collides(c, Init, d, mask) || Collides(c, Response, d, mask) || Collides(c, Cookie, d, mask)
  }

  function TypeMask(ks: Keystream, prefix: seq<byte>): (mask: seq<byte>)
    requires |prefix| >= NONCE_SZ
    ensures |mask| == 4
  {
    seq(4, i requires 0 <= i => ks(prefix[..NONCE_SZ], i))
  }

  lemma XorMaskIsMasked(s: seq<byte>, ks: Keystream, prefix: seq<byte>)
    requires |s| == 4 && |prefix| >= NONCE_SZ
    ensures XorMask(s, TypeMask(ks, prefix)) == Masked(s, 4, ks, prefix[..NONCE_SZ])
  {
  }

  lemma CollidesIsFits(c: Config, k: Kind, d: seq<byte>)
    requires c.Valid() && c.protection.Some? && |d| >= NONCE_SZ && k != Transport
    ensures Collides(c, k, d, TypeMask(c.protection.value, d)) <==> Fits(c, k, d)
  {
    var p := c.padding[k];
    if p + 4 <= |d| {
      XorMaskIsMasked(d[p..p + 4], c.protection.value, d);
    }
  }

  lemma PeerSeesAnyFit(c: Config, d: seq<byte>)
    requires c.Valid()
    ensures PeerSeesHandshake(c, d) <==> (Fits(c, Init, d) || Fits(c, Response, d) || Fits(c, Cookie, d))
  {
    var o := [Init, Response, Cookie, Transport];
    FirstFitAt(c, o, d, 3);
    assert o[0] == Init && o[1] == Response && o[2] == Cookie;
    if PeerKind(c, d) == None {
      assert Init in o && Response in o && Cookie in o;
    }
  }

  /** The sender's prediction is the peer's decision. */
  lemma PredictionIsExact(c: Config, d: seq<byte>)
    requires c.Valid() && c.protection.Some? && |d| >= NONCE_SZ
    ensures PeerWouldMisclassify(c, d, TypeMask(c.protection.value, d)) <==> PeerSeesHandshake(c, d)
  {
    CollidesIsFits(c, Init, d);
    CollidesIsFits(c, Response, d);
    CollidesIsFits(c, Cookie, d);
    PeerSeesAnyFit(c, d);
  }

  /** A sequence of draws for the prefix: as many as the loop can make, each of the configured length. */
  ghost predicate Draws(c: Config, message: seq<byte>, draws: seq<seq<byte>>) {
    && c.Valid()
    && |message| >= Size(Transport)
    && c.header[Transport].Contains(Le32(message[..4]))
    && |draws| == MAX_PREFIX_DRAWS
    && forall i :: 0 <= i < |draws| ==> |draws[i]| == c.padding[Transport]
  }

  /** For each draw, whether the peer would see a handshake. */
  ghost function Collisions(c: Config, message: seq<byte>, draws: seq<seq<byte>>): (r: seq<bool>)
    requires Draws(c, message, draws)
    ensures |r| == MAX_PREFIX_DRAWS
  {
    seq(|draws|, i requires 0 <= i < |draws| => PeerSeesHandshake(c, Datagram(c, Transport, draws[i], message, [])))
  }

  /** The first draw from `i` on that did not collide, or the last. */
  ghost function FirstClear(collisions: seq<bool>, i: nat): (r: nat)
    requires i < |collisions|
    ensures i <= r < |collisions|
    ensures !collisions[r] || r == |collisions| - 1
    ensures forall j :: i <= j < r ==> collisions[j]
    decreases |collisions| - i
  {
    if i == |collisions| - 1 || !collisions[i] then i else FirstClear(collisions, i + 1)
  }

  /** The first clear draw collides only if every draw does. */
  lemma FirstClearCollides(collisions: seq<bool>)
    requires |collisions| > 0
    ensures collisions[FirstClear(collisions, 0)] <==> false !in collisions
  {
  }

  ghost function Chosen(c: Config, message: seq<byte>, draws: seq<seq<byte>>): (r: nat)
    requires Draws(c, message, draws)
    ensures r < |draws|
  {
    if c.protection.None? then 0 else FirstClear(Collisions(c, message, draws), 0)
  }

  /** Protects the header afresh under the prefix now in `dst`. */
  method ProtectHeader(dst: array<byte>, at: nat, clearHeader: seq<byte>, ks: Keystream, nonce: seq<byte>)
    requires |clearHeader| == TRANSPORT_HEADER_SZ && at + TRANSPORT_HEADER_SZ <= dst.Length
    modifies dst
    ensures dst[..at] == old(dst[..at])
    ensures dst[at..at + TRANSPORT_HEADER_SZ] == Masked(clearHeader, TRANSPORT_HEADER_SZ, ks, nonce)
    ensures dst[at + TRANSPORT_HEADER_SZ..] == old(dst[at + TRANSPORT_HEADER_SZ..])
  {
    ghost var before := dst[..];
    for i := 0 to TRANSPORT_HEADER_SZ
      invariant forall j :: 0 <= j < dst.Length ==>
                  dst[j] == if at <= j < at + i then Xor(clearHeader[j - at], ks(nonce, j - at)) else before[j]
    {
      dst[at + i] := Xor(clearHeader[i], ks(nonce, i));
    }
  }

  /** The layout of a transport datagram: prefix, protected header, ciphertext as it was. */
  lemma TransportLayout(c: Config, prefix: seq<byte>, message: seq<byte>)
    requires Sendable(c, Transport, prefix, message, [])
    ensures Datagram(c, Transport, prefix, message, []) ==
              prefix + Protect(c, Transport, prefix, message[..TRANSPORT_HEADER_SZ]) + message[TRANSPORT_HEADER_SZ..]
  {
  }

  /** Writes the drawn prefix and protects the clear header under it; the ciphertext stays. */
  method WritePrefix(
      dst: array<byte>, n: nat, prefix: seq<byte>, header: seq<byte>, ghost body: seq<byte>, ks: Keystream)
    requires |prefix| >= NONCE_SZ && |header| == TRANSPORT_HEADER_SZ
    requires n == |prefix| + TRANSPORT_HEADER_SZ + |body| <= dst.Length
    requires dst[|prefix| + TRANSPORT_HEADER_SZ..n] == body
    modifies dst
    ensures dst[|prefix| + TRANSPORT_HEADER_SZ..n] == body
    ensures dst[..n] == prefix + Masked(header, TRANSPORT_HEADER_SZ, ks, prefix[..NONCE_SZ]) + body
  {
    var at := |prefix|;
    ghost var before := dst[..];
    assert before[at + TRANSPORT_HEADER_SZ..n] == body;
    Fill(dst, 0, prefix);
    ghost var filled := dst[..];
    ProtectHeader(dst, at, header, ks, prefix[..NONCE_SZ]);
    BodyStays(before, filled, dst[..], prefix, n);
  }

  lemma BodyStays(before: seq<byte>, filled: seq<byte>, after: seq<byte>, prefix: seq<byte>, n: nat)
    requires |before| == |filled| == |after| >= n >= |prefix| + TRANSPORT_HEADER_SZ
    requires filled[|prefix|..] == before[|prefix|..] && filled[..|prefix|] == prefix
    requires after[|prefix| + TRANSPORT_HEADER_SZ..] == filled[|prefix| + TRANSPORT_HEADER_SZ..]
    requires after[..|prefix|] == filled[..|prefix|]
    ensures after[|prefix| + TRANSPORT_HEADER_SZ..n] == before[|prefix| + TRANSPORT_HEADER_SZ..n]
    ensures after[..n] ==
      prefix + after[|prefix|..|prefix| + TRANSPORT_HEADER_SZ] + before[|prefix| + TRANSPORT_HEADER_SZ..n]
  {
    var at, to := |prefix|, |prefix| + TRANSPORT_HEADER_SZ;
    DropSlice(before, at, TRANSPORT_HEADER_SZ, n - at);
    DropSlice(filled, at, TRANSPORT_HEADER_SZ, n - at);
    DropTake(filled, to, n - to);
    DropTake(after, to, n - to);
    Cut(after, at, to, n);
  }

  /** The mask derived from the prefix predicts what the peer makes of the datagram. */
  lemma PrefixPredicts(c: Config, prefix: seq<byte>, message: seq<byte>)
    requires Sendable(c, Transport, prefix, message, []) && c.protection.Some?
    ensures var d := Datagram(c, Transport, prefix, message, []);
      PeerWouldMisclassify(c, d, TypeMask(c.protection.value, prefix)) <==> PeerSeesHandshake(c, d)
  {
    var d := Datagram(c, Transport, prefix, message, []);
    assert d[..NONCE_SZ] == prefix[..NONCE_SZ];
    PredictionIsExact(c, d);
  }

  /** One turn of the loop: put the drawn prefix in place and predict the peer. */
  method TryDraw(c: Config, dst: array<byte>, n: nat, message: seq<byte>, draws: seq<seq<byte>>, i: nat,
                 ghost sent: seq<seq<byte>>)
    returns (misread: bool)
    requires Draws(c, message, draws) && c.protection.Some? && i < |draws| && Candidates(c, message, draws, sent)
    requires n == c.padding[Transport] + |message| <= dst.Length
    requires dst[c.padding[Transport] + TRANSPORT_HEADER_SZ..n] == message[TRANSPORT_HEADER_SZ..]
    modifies dst
    ensures dst[c.padding[Transport] + TRANSPORT_HEADER_SZ..n] == message[TRANSPORT_HEADER_SZ..]
    ensures dst[..n] == sent[i] && misread == Collisions(c, message, draws)[i]
  {
    WritePrefix(dst, n, draws[i], message[..TRANSPORT_HEADER_SZ], message[TRANSPORT_HEADER_SZ..], c.protection.value);
    TransportLayout(c, draws[i], message);
    misread := PeerWouldMisclassify(c, dst[..n], TypeMask(c.protection.value, draws[i]));
    PrefixPredicts(c, draws[i], message);
  }

  /** What each draw would put on the wire. */
  ghost predicate Candidates(c: Config, message: seq<byte>, draws: seq<seq<byte>>, sent: seq<seq<byte>>)
    requires Draws(c, message, draws)
  {
    && |sent| == |draws|
    && forall i :: 0 <= i < |draws| ==> sent[i] == Datagram(c, Transport, draws[i], message, [])
  }

  /** The redraw loop, under header protection. */
  method Redraw(c: Config, dst: array<byte>, n: nat, message: seq<byte>, draws: seq<seq<byte>>,
                ghost sent: seq<seq<byte>>)
    requires Draws(c, message, draws) && c.protection.Some? && Candidates(c, message, draws, sent)
    requires n == c.padding[Transport] + |message| <= dst.Length
    requires dst[c.padding[Transport] + TRANSPORT_HEADER_SZ..n] == message[TRANSPORT_HEADER_SZ..]
    modifies dst
    ensures dst[..n] == sent[FirstClear(Collisions(c, message, draws), 0)]
  {
    ghost var hit := Collisions(c, message, draws);
    for i := 0 to MAX_PREFIX_DRAWS
      invariant dst[c.padding[Transport] + TRANSPORT_HEADER_SZ..n] == message[TRANSPORT_HEADER_SZ..]
      invariant i < MAX_PREFIX_DRAWS ==> FirstClear(hit, 0) == FirstClear(hit, i)
      invariant i == MAX_PREFIX_DRAWS ==> dst[..n] == sent[FirstClear(hit, 0)]
    {
      var misread := TryDraw(c, dst, n, message, draws, i, sent);
      if !misread {
        return;
      }
    }
  }

  lemma PrefixBefore(before: seq<byte>, after: seq<byte>, prefix: seq<byte>, message: seq<byte>)
    requires |before| == |after| >= |prefix| + |message|
    requires before[|prefix|..|prefix| + |message|] == message
    requires after[..|prefix|] == prefix && after[|prefix|..] == before[|prefix|..]
    ensures after[..|prefix| + |message|] == prefix + message
  {
    var n := |prefix| + |message|;
    DropTake(before, |prefix|, |message|);
    DropTake(after, |prefix|, |message|);
    Cut(after, |prefix|, n, n);
    assert after[n..n] == [];
  }

  lemma BareDatagram(c: Config, prefix: seq<byte>, message: seq<byte>)
    requires c.protection.None?
    ensures Datagram(c, Transport, prefix, message, []) == prefix + message
  {
  }

  /**
   Formats a transport datagram. Whatever the draws, what is sent is the
   message under one of the drawn prefixes: the first that escapes the
   handshake candidates, or the last.
   */
  method FormatTransport(c: Config, dst: array<byte>, message: seq<byte>, draws: seq<seq<byte>>) returns (n: nat)
    requires Draws(c, message, draws)
    requires c.padding[Transport] + |message| <= dst.Length
    modifies dst
    ensures n == c.padding[Transport] + |message|
    ensures dst[..n] == Datagram(c, Transport, draws[Chosen(c, message, draws)], message, [])
  {
    var s4 := c.padding[Transport];
    assert Sendable(c, Transport, draws[0], message, []);
    n := s4 + |message|;
    Fill(dst, s4, message);
    ghost var written := dst[..];
    assert written[s4..n] == message;
    if c.protection.None? {
      Fill(dst, 0, draws[0]);
      PrefixBefore(written, dst[..], draws[0], message);
      BareDatagram(c, draws[0], message);
    } else {
      assert dst[s4 + TRANSPORT_HEADER_SZ..n] == dst[s4..n][TRANSPORT_HEADER_SZ..];
      ghost var sent := seq(|draws|, i requires 0 <= i < |draws| => Datagram(c, Transport, draws[i], message, []));
      Redraw(c, dst, n, message, draws, sent);
    }
  }

  /** A transport datagram read first by the handshake candidates is transport or a handshake, never nothing. */
  lemma TransportOrHandshake(c: Config, prefix: seq<byte>, message: seq<byte>)
    requires Sendable(c, Transport, prefix, message, [])
    ensures var d := Datagram(c, Transport, prefix, message, []);
      PeerKind(c, d) != Some(Transport) <==> PeerSeesHandshake(c, d)
  {
    OwnKindFits(c, Transport, prefix, message, []);
    assert Transport in [Init, Response, Cookie, Transport];
  }

  /** What the peer makes of the datagram under the `i`th draw. */
  lemma OutcomeOfDraw(c: Config, message: seq<byte>, draws: seq<seq<byte>>, i: nat)
    requires Draws(c, message, draws) && i < |draws|
    ensures var d := Datagram(c, Transport, draws[i], message, []);
      && Extract(c, Transport, d) == message
      && (PeerKind(c, d) != Some(Transport) <==> Collisions(c, message, draws)[i])
  {
    ExtractUndoesSending(c, Transport, draws[i], message, []);
    TransportOrHandshake(c, draws[i], message);
  }

  /**
   Against a peer that tests handshake kinds first, a protected transport
   datagram is delivered, byte for byte, unless all eight draws collided.
   */
  lemma PeerRecoversTransport(c: Config, message: seq<byte>, draws: seq<seq<byte>>)
    requires Draws(c, message, draws) && c.protection.Some?
    ensures var d := Datagram(c, Transport, draws[Chosen(c, message, draws)], message, []);
      && Extract(c, Transport, d) == message
      && (PeerKind(c, d) == Some(Transport) <==> false in Collisions(c, message, draws))
  {
    var hit := Collisions(c, message, draws);
    OutcomeOfDraw(c, message, draws, FirstClear(hit, 0));
    FirstClearCollides(hit);
  }
}
