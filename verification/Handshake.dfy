/**
 One end of the Noise IKpsk2 handshake: a current and a previous in-flight
 handshake, cycling session indices, the timestamp gate and the cookie state.

 `Hs` is the value of that state and the functions on it say what each message
 does; the class carries the state as fields and is proved to follow them.
 */
module Handshake {
  import opened Options
  import opened SymbolicCrypto

  const INITIAL_CHAIN_KEY := Const(0)
  const INITIAL_CHAIN_HASH := Const(1)
  const LABEL_MAC1 := Const(2)
  const LABEL_COOKIE := Const(3)
  const ONE := Const(0x101)
  const TWO := Const(0x102)
  const THREE := Const(0x103)
  const ZEROES := Const(4)                    // sixteen or thirty-two zero bytes

  datatype Error =
    | WrongKey | WrongIndex | WrongTai64nTimestamp | InvalidAeadTag | UnexpectedPacket

  datatype Result<+T> = Ok(value: T) | Err(error: Error)

  /** `psk` is the preshared key, or zeroes when there is none. */
  datatype Params = Params(staticPrivate: nat, peerStatic: Term, psk: Term)

  datatype InFlight =
    | NoHandshake
    | InitSent(localIndex: nat, hash: Term, chainingKey: Term, ephemeral: nat)
    | Expired

  datatype Cookies = Cookies(lastMac1: Option<Term>, index: nat, writeCookie: Option<Term>)

  datatype Hs = Hs(
    params: Params,
    nextIndex: nat,
    previous: InFlight,
    state: InFlight,
    lastTimestamp: Tai64N,
    cookies: Cookies)

  datatype InitPacket = InitPacket(
    msgType: nat, sender: nat, ephemeral: Term, encStatic: Term, encTimestamp: Term, mac1: Term, mac2: Term)

  datatype ResponsePacket = ResponsePacket(
    msgType: nat, sender: nat, receiver: nat, ephemeral: Term, encNothing: Term, mac1: Term, mac2: Term)

  datatype Session = Session(receivingIndex: nat, sendingIndex: nat, receivingKey: Term, sendingKey: Term)

  function New(params: Params, globalIndex: nat): Hs {
    Hs(params, globalIndex, NoHandshake, NoHandshake, Tai64N(0, 0), Cookies(None, 0, None))
  }

  /** The 24-bit peer part stays, the 8-bit session part cycles. */
  function NextIndex(index: nat): nat {
    index / 0x100 * 0x100 + (index % 0x100 + 1) % 0x100
  }

  // ---- Key schedule ----

  function MixKey(chainingKey: Term, input: Term): Term {
    Hmac(Hmac(chainingKey, input), ONE)
  }

  function SealKey(chainingKey: Term, input: Term): Term {
    var temp := Hmac(chainingKey, input);
    Hmac2(temp, Hmac(temp, ONE), TWO)
  }

  /** The sealed fields of the first message and what its sender remembers of it. */
  datatype FirstMessage = FirstMessage(encStatic: Term, encTimestamp: Term, hash: Term, chainingKey: Term)

  /** The first message as the initiator computes it. */
  function FirstAsInitiator(params: Params, ephemeral: nat, stamp: Tai64N): FirstMessage {
    var h1 := Hash(Hash(INITIAL_CHAIN_HASH, params.peerStatic), Public(ephemeral));
    var ck1 := MixKey(INITIAL_CHAIN_KEY, Public(ephemeral));
    var es := Dh(ephemeral, params.peerStatic);
    var encStatic := Sealed(SealKey(ck1, es), Public(params.staticPrivate), h1);
    var h2 := Hash(h1, encStatic);
    var ck2 := MixKey(ck1, es);
    var ss := Dh(params.staticPrivate, params.peerStatic);
    var encTimestamp := Sealed(SealKey(ck2, ss), Time(stamp), h2);
    FirstMessage(encStatic, encTimestamp, Hash(h2, encTimestamp), MixKey(ck2, ss))
  }

  /** What the responder learns from a first message it can open. */
  datatype Opened = Opened(stamp: Tai64N, hash: Term, chainingKey: Term)

  /** The first message as the responder opens it. */
  function OpenFirst(params: Params, p: InitPacket): Result<Opened> {
    var h1 := Hash(Hash(INITIAL_CHAIN_HASH, Public(params.staticPrivate)), p.ephemeral);
    var ck1 := MixKey(INITIAL_CHAIN_KEY, p.ephemeral);
    var es := Dh(params.staticPrivate, p.ephemeral);
    var sender := Open(SealKey(ck1, es), p.encStatic, h1);
    if sender.None? then Err(InvalidAeadTag) else
    if sender.value != params.peerStatic then Err(WrongKey) else
    var h2 := Hash(h1, p.encStatic);
    var ck2 := MixKey(ck1, es);
    var ss := Dh(params.staticPrivate, params.peerStatic);
    var stamp := Open(SealKey(ck2, ss), p.encTimestamp, h2);
    if stamp.None? || !stamp.value.Time? then Err(InvalidAeadTag) else
    Ok(Opened(stamp.value.stamp, Hash(h2, p.encTimestamp), MixKey(ck2, ss)))
  }

  /** The sealed field of the second message and the keys of the two directions. */
  datatype SecondMessage = SecondMessage(encNothing: Term, toResponder: Term, toInitiator: Term)

  /** The end of the key schedule, from the chaining key that has absorbed all three DHs. */
  function Finish(hash: Term, chainingKey: Term, psk: Term): SecondMessage {
    var temp := Hmac(chainingKey, psk);
    var ck := Hmac(temp, ONE);
    var temp2 := Hmac2(temp, ck, TWO);
    var key := Hmac2(temp, temp2, THREE);
    var t1 := Hmac(ck, Empty);
    var t2 := Hmac(t1, ONE);
    SecondMessage(Sealed(key, Empty, Hash(hash, temp2)), t2, Hmac2(t1, t2, TWO))
  }

  /** The second message as the responder computes it. */
  function SecondAsResponder(params: Params, o: Opened, initEphemeral: Term, ephemeral: nat): SecondMessage {
    var ck4 := MixKey(o.chainingKey, Public(ephemeral));
    var ck5 := MixKey(ck4, Dh(ephemeral, initEphemeral));
    var ck6 := MixKey(ck5, Dh(ephemeral, params.peerStatic));
    Finish(Hash(o.hash, Public(ephemeral)), ck6, params.psk)
  }

  /** The second message as the initiator expects it, given the responder's ephemeral. */
  function SecondAsInitiator(params: Params, s: InFlight, respEphemeral: Term): SecondMessage
    requires s.InitSent?
  {
    var ck4 := MixKey(s.chainingKey, respEphemeral);
    var ck5 := MixKey(ck4, Dh(s.ephemeral, respEphemeral));
    var ck6 := MixKey(ck5, Dh(params.staticPrivate, respEphemeral));
    Finish(Hash(s.hash, respEphemeral), ck6, params.psk)
  }

  // ---- MACs ----

  function InitBody(p: InitPacket): Term {
    Pair(Const(p.msgType), Pair(Const(p.sender), Pair(p.ephemeral, Pair(p.encStatic, p.encTimestamp))))
  }

  function ResponseBody(p: ResponsePacket): Term {
    Pair(Const(p.msgType), Pair(Const(p.sender), Pair(Const(p.receiver), Pair(p.ephemeral, p.encNothing))))
  }

  function Mac1(params: Params, body: Term): Term {
    Mac(Hash(LABEL_MAC1, params.peerStatic), body)
  }

  function Mac2(cookies: Cookies, body: Term, mac1: Term): Term {
    if cookies.writeCookie.Some? then Mac(cookies.writeCookie.value, Pair(body, mac1)) else ZEROES
  }

  // ---- What each message does to the state ----

  function FormatInitiation(hs: Hs, ephemeral: nat, stamp: Tai64N, msgType: nat): (Hs, InitPacket) {
    var index := NextIndex(hs.nextIndex);
    var m := FirstAsInitiator(hs.params, ephemeral, stamp);
    var bare := InitPacket(msgType, index, Public(ephemeral), m.encStatic, m.encTimestamp, ZEROES, ZEROES);
    var mac1 := Mac1(hs.params, InitBody(bare));
    var packet := bare.(mac1 := mac1, mac2 := Mac2(hs.cookies, InitBody(bare), mac1));
    (hs.(nextIndex := index,
         previous := hs.state,
         state := InitSent(index, m.hash, m.chainingKey, ephemeral),
         cookies := hs.cookies.(index := index, lastMac1 := Some(mac1))),
     packet)
  }

  function ReceiveInitialization(hs: Hs, p: InitPacket, ephemeral: nat, msgType: nat)
    : (Hs, Result<(ResponsePacket, Session)>)
  {
    var box := OpenFirst(hs.params, p);
    if box.Err? then (hs, Err(box.error)) else
    var o := box.value;
    if !o.stamp.After(hs.lastTimestamp) then (hs, Err(WrongTai64nTimestamp)) else
    var index := NextIndex(hs.nextIndex);
    var m := SecondAsResponder(hs.params, o, p.ephemeral, ephemeral);
    var bare := ResponsePacket(msgType, index, p.sender, Public(ephemeral), m.encNothing, ZEROES, ZEROES);
    var mac1 := Mac1(hs.params, ResponseBody(bare));
    var packet := bare.(mac1 := mac1, mac2 := Mac2(hs.cookies, ResponseBody(bare), mac1));
    (hs.(nextIndex := index,
         previous := hs.state,
         state := NoHandshake,
         lastTimestamp := o.stamp,
         cookies := hs.cookies.(index := index, lastMac1 := Some(mac1))),
     Ok((packet, Session(index, p.sender, m.toResponder, m.toInitiator))))
  }

  predicate Awaits(s: InFlight, index: nat) {
    s.InitSent? && s.localIndex == index
  }

  function ReceiveResponse(hs: Hs, p: ResponsePacket): (Hs, Result<Session>) {
    if !Awaits(hs.state, p.receiver) && !Awaits(hs.previous, p.receiver) then (hs, Err(UnexpectedPacket)) else
    var isPrevious := !Awaits(hs.state, p.receiver);
    var s := if isPrevious then hs.previous else hs.state;
    var m := SecondAsInitiator(hs.params, s, p.ephemeral);
    if m.encNothing != p.encNothing then (hs, Err(InvalidAeadTag)) else
    (if isPrevious then hs.(previous := NoHandshake) else hs.(state := NoHandshake),
     Ok(Session(s.localIndex, p.sender, m.toInitiator, m.toResponder)))
  }

  function SetExpired(hs: Hs): Hs {
    hs.(previous := Expired, state := Expired)
  }

  // ---- The object ----

  class HandshakeObject {
    const params: Params
    var nextIndex: nat
    var previous: InFlight
    var state: InFlight
    var lastTimestamp: Tai64N
    var cookies: Cookies

    function View(): Hs
      reads this
    {
      Hs(params, nextIndex, previous, state, lastTimestamp, cookies)
    }

    constructor (params: Params, globalIndex: nat)
      ensures View() == New(params, globalIndex)
    {
      this.params := params;
      nextIndex := globalIndex;
      previous, state := NoHandshake, NoHandshake;
      lastTimestamp := Tai64N(0, 0);
      cookies := Cookies(None, 0, None);
    }

    method IncIndex() returns (index: nat)
      modifies this`nextIndex
      ensures index == nextIndex == NextIndex(old(nextIndex))
      ensures nextIndex / 0x100 == old(nextIndex) / 0x100
    {
      var idx8 := nextIndex % 0x100;
      nextIndex := nextIndex - idx8 + (idx8 + 1) % 0x100;
      index := nextIndex;
    }

    method AppendMacs(localIndex: nat, body: Term) returns (mac1: Term, mac2: Term)
      modifies this`cookies
      ensures mac1 == Mac1(params, body) && mac2 == Mac2(old(cookies), body, mac1)
      ensures cookies == old(cookies).(index := localIndex, lastMac1 := Some(mac1))
    {
      mac1 := Mac(Hash(LABEL_MAC1, params.peerStatic), body);
      match cookies.writeCookie {
        case Some(cookie) => mac2 := Mac(cookie, Pair(body, mac1));
        case None => mac2 := ZEROES;
      }
      cookies := Cookies(Some(mac1), localIndex, cookies.writeCookie);
    }

    method Initiate(ephemeral: nat, stamp: Tai64N, msgType: nat) returns (packet: InitPacket)
      modifies this
      ensures (View(), packet) == FormatInitiation(old(View()), ephemeral, stamp, msgType)
    {
      var localIndex := IncIndex();
      var chainingKey, hash := INITIAL_CHAIN_KEY, INITIAL_CHAIN_HASH;
      hash := Hash(hash, params.peerStatic);
      var public := Public(ephemeral);
      hash := Hash(hash, public);
      chainingKey := Hmac(Hmac(chainingKey, public), ONE);
      var temp := Hmac(chainingKey, Dh(ephemeral, params.peerStatic));
      chainingKey := Hmac(temp, ONE);
      var key := Hmac2(temp, chainingKey, TWO);
      var encStatic := Sealed(key, Public(params.staticPrivate), hash);
      hash := Hash(hash, encStatic);
      temp := Hmac(chainingKey, Dh(params.staticPrivate, params.peerStatic));
      chainingKey := Hmac(temp, ONE);
      key := Hmac2(temp, chainingKey, TWO);
      var encTimestamp := Sealed(key, Time(stamp), hash);
      hash := Hash(hash, encTimestamp);
      previous := state;
      state := InitSent(localIndex, hash, chainingKey, ephemeral);
      packet := InitPacket(msgType, localIndex, public, encStatic, encTimestamp, ZEROES, ZEROES);
      var mac1, mac2 := AppendMacs(localIndex, InitBody(packet));
      packet := packet.(mac1 := mac1, mac2 := mac2);
    }

    method AnswerInitialization(p: InitPacket, ephemeral: nat, msgType: nat)
      returns (r: Result<(ResponsePacket, Session)>)
      modifies this
      ensures (View(), r) == ReceiveInitialization(old(View()), p, ephemeral, msgType)
    {
      var chainingKey, hash := INITIAL_CHAIN_KEY, INITIAL_CHAIN_HASH;
      hash := Hash(hash, Public(params.staticPrivate));
      hash := Hash(hash, p.ephemeral);
      chainingKey := Hmac(Hmac(chainingKey, p.ephemeral), ONE);
      var temp := Hmac(chainingKey, Dh(params.staticPrivate, p.ephemeral));
      chainingKey := Hmac(temp, ONE);
      var key := Hmac2(temp, chainingKey, TWO);
      var peerStatic := Open(key, p.encStatic, hash);
      if peerStatic.None? {
        return Err(InvalidAeadTag);
      }
      if params.peerStatic != peerStatic.value {
        return Err(WrongKey);
      }
      hash := Hash(hash, p.encStatic);
      temp := Hmac(chainingKey, Dh(params.staticPrivate, params.peerStatic));
      chainingKey := Hmac(temp, ONE);
      key := Hmac2(temp, chainingKey, TWO);
      var stamp := Open(key, p.encTimestamp, hash);
      if stamp.None? || !stamp.value.Time? {
        return Err(InvalidAeadTag);
      }
      if !stamp.value.stamp.After(lastTimestamp) {
        return Err(WrongTai64nTimestamp);
      }
      lastTimestamp := stamp.value.stamp;
      hash := Hash(hash, p.encTimestamp);
      previous := state;
      state := NoHandshake;
      var answer := FormatResponse(hash, chainingKey, p.ephemeral, p.sender, ephemeral, msgType);
      r := Ok(answer);
    }

    method FormatResponse(
        hash0: Term, chainingKey0: Term, initEphemeral: Term, peerIndex: nat, ephemeral: nat, msgType: nat)
      returns (r: (ResponsePacket, Session))
      modifies this`nextIndex, this`cookies
      ensures var m := SecondAsResponder(params, Opened(Tai64N(0, 0), hash0, chainingKey0), initEphemeral, ephemeral);
        && nextIndex == NextIndex(old(nextIndex))
        && r.1 == Session(nextIndex, peerIndex, m.toResponder, m.toInitiator)
        && var bare := ResponsePacket(msgType, nextIndex, peerIndex, Public(ephemeral), m.encNothing, ZEROES, ZEROES);
           var mac1 := Mac1(params, ResponseBody(bare));
           && r.0 == bare.(mac1 := mac1, mac2 := Mac2(old(cookies), ResponseBody(bare), mac1))
           && cookies == old(cookies).(index := nextIndex, lastMac1 := Some(mac1))
    {
      var localIndex := IncIndex();
      var public := Public(ephemeral);
      var hash := Hash(hash0, public);
      var chainingKey := Hmac(Hmac(chainingKey0, public), ONE);
      var temp := Hmac(chainingKey, Dh(ephemeral, initEphemeral));
      chainingKey := Hmac(temp, ONE);
      temp := Hmac(chainingKey, Dh(ephemeral, params.peerStatic));
      chainingKey := Hmac(temp, ONE);
      temp := Hmac(chainingKey, params.psk);
      chainingKey := Hmac(temp, ONE);
      var temp2 := Hmac2(temp, chainingKey, TWO);
      var key := Hmac2(temp, temp2, THREE);
      hash := Hash(hash, temp2);
      var encNothing := Sealed(key, Empty, hash);
      var temp1 := Hmac(chainingKey, Empty);
      temp2 := Hmac(temp1, ONE);
      var temp3 := Hmac2(temp1, temp2, TWO);
      var packet := ResponsePacket(msgType, localIndex, peerIndex, public, encNothing, ZEROES, ZEROES);
      var mac1, mac2 := AppendMacs(localIndex, ResponseBody(packet));
      r := (packet.(mac1 := mac1, mac2 := mac2), Session(localIndex, peerIndex, temp2, temp3));
    }

    method ConsumeResponse(p: ResponsePacket) returns (r: Result<Session>)
      modifies this`state, this`previous
      ensures (View(), r) == ReceiveResponse(old(View()), p)
    {
      var s, isPrevious;
      if state.InitSent? && state.localIndex == p.receiver {
        s, isPrevious := state, false;
      } else if previous.InitSent? && previous.localIndex == p.receiver {
        s, isPrevious := previous, true;
      } else {
        return Err(UnexpectedPacket);
      }
      var hash := Hash(s.hash, p.ephemeral);
      var temp := Hmac(s.chainingKey, p.ephemeral);
      var chainingKey := Hmac(temp, ONE);
      temp := Hmac(chainingKey, Dh(s.ephemeral, p.ephemeral));
      chainingKey := Hmac(temp, ONE);
      temp := Hmac(chainingKey, Dh(params.staticPrivate, p.ephemeral));
      chainingKey := Hmac(temp, ONE);
      temp := Hmac(chainingKey, params.psk);
      chainingKey := Hmac(temp, ONE);
      var temp2 := Hmac2(temp, chainingKey, TWO);
      var key := Hmac2(temp, temp2, THREE);
      hash := Hash(hash, temp2);
      var box := Open(key, p.encNothing, hash);
      if box != Some(Empty) {
        return Err(InvalidAeadTag);
      }
      var temp1 := Hmac(chainingKey, Empty);
      temp2 := Hmac(temp1, ONE);
      var temp3 := Hmac2(temp1, temp2, TWO);
      if isPrevious {
        previous := NoHandshake;
      } else {
        state := NoHandshake;
      }
      r := Ok(Session(s.localIndex, p.sender, temp3, temp2));
    }

    method Expire()
      modifies this`state, this`previous
      ensures View() == SetExpired(old(View()))
    {
      previous := Expired;
      state := Expired;
    }
  }

  // ---- One exchange between two ends that know each other ----

  predicate Paired(a: Params, b: Params) {
    a.peerStatic == Public(b.staticPrivate) && b.peerStatic == Public(a.staticPrivate) && a.psk == b.psk
  }

  /** The responder opens exactly what the initiator sealed. */
  lemma FirstMessageOpens(a: Params, b: Params, ephemeral: nat, stamp: Tai64N, p: InitPacket)
    requires Paired(a, b)
    requires var m := FirstAsInitiator(a, ephemeral, stamp);
      p.ephemeral == Public(ephemeral) && p.encStatic == m.encStatic && p.encTimestamp == m.encTimestamp
    ensures var m := FirstAsInitiator(a, ephemeral, stamp);
      OpenFirst(b, p) == Ok(Opened(stamp, m.hash, m.chainingKey))
  {
  }

  lemma SecondMessageAgrees(a: Params, b: Params, s: InFlight, o: Opened, ephemeral: nat)
    requires Paired(a, b)
    requires s.InitSent? && o.hash == s.hash && o.chainingKey == s.chainingKey
    ensures SecondAsInitiator(a, s, Public(ephemeral)) == SecondAsResponder(b, o, Public(s.ephemeral), ephemeral)
  {
  }

  /**
   Completeness: an initiation with a later timestamp is answered, and the
   answer is accepted whether the initiation is still the current one or has
   become the previous one, leaving both ends with the same keys, swapped,
   and each other's index.
   */
  lemma ExchangeCompletes(a: Hs, b: Hs, a': Hs, eA: nat, eB: nat, stamp: Tai64N, type1: nat, type2: nat)
    requires Paired(a.params, b.params)
    requires stamp.After(b.lastTimestamp)
    requires var sent := FormatInitiation(a, eA, stamp, type1).0;
      && a'.params == a.params
      && (a'.state == sent.state || (a'.previous == sent.state && !Awaits(a'.state, sent.nextIndex)))
    ensures var init := FormatInitiation(a, eA, stamp, type1).1;
      var (b', answer) := ReceiveInitialization(b, init, eB, type2);
      && answer.Ok?
      && b'.lastTimestamp == stamp
      && var (a'', accepted) := ReceiveResponse(a', answer.value.0);
         && accepted.Ok?
         && accepted.value.sendingKey == answer.value.1.receivingKey
         && accepted.value.receivingKey == answer.value.1.sendingKey
         && accepted.value.sendingIndex == answer.value.1.receivingIndex
         && accepted.value.receivingIndex == answer.value.1.sendingIndex
  {
    var (sent, init) := FormatInitiation(a, eA, stamp, type1);
    FirstMessageOpens(a.params, b.params, eA, stamp, init);
    var m := FirstAsInitiator(a.params, eA, stamp);
    SecondMessageAgrees(a.params, b.params, sent.state, Opened(stamp, m.hash, m.chainingKey), eB);
  }

  /** The sealed field of the second message determines the transcript, the chaining key and the preshared key. */
  lemma FinishInjective(h: Term, ck: Term, psk: Term, h': Term, ck': Term, psk': Term)
    requires Finish(h, ck, psk).encNothing == Finish(h', ck', psk').encNothing
    ensures h == h' && ck == ck' && psk == psk'
  {
  }

  /** The keys of the two directions differ, and each determines the chaining key and the preshared key. */
  lemma DirectionKeys(h: Term, ck: Term, psk: Term, h': Term, ck': Term, psk': Term)
    ensures var m, m' := Finish(h, ck, psk), Finish(h', ck', psk');
      && m.toResponder != m'.toInitiator
      && (m.toResponder == m'.toResponder <==> ck == ck' && psk == psk')
      && (m.toInitiator == m'.toInitiator <==> ck == ck' && psk == psk')
  {
  }

  /** Two ends that name each other's static keys; their preshared keys may differ. */
  predicate NameEachOther(a: Params, b: Params) {
    a.peerStatic == Public(b.staticPrivate) && b.peerStatic == Public(a.staticPrivate)
  }

  /**
   The preshared key decides: between two ends that name each other, an
   undisturbed response to an initiation is accepted exactly when both hold the
   same preshared key; otherwise it fails to authenticate.
   */
  lemma PresharedKeyDecides(a: Hs, b: Hs, eA: nat, eB: nat, stamp: Tai64N, type1: nat, type2: nat)
    requires NameEachOther(a.params, b.params) && stamp.After(b.lastTimestamp)
    ensures var (a', init) := FormatInitiation(a, eA, stamp, type1);
      var answer := ReceiveInitialization(b, init, eB, type2).1;
      && answer.Ok?
      && var accepted := ReceiveResponse(a', answer.value.0).1;
         && (accepted.Ok? <==> a.params.psk == b.params.psk)
         && (accepted.Err? ==> accepted.error == InvalidAeadTag)
  {
    var (a', init) := FormatInitiation(a, eA, stamp, type1);
    var same := b.params.(psk := a.params.psk);
    FirstMessageOpens(a.params, same, eA, stamp, init);
    var m := FirstAsInitiator(a.params, eA, stamp);
    assert OpenFirst(b.params, init) == OpenFirst(same, init);
    var ck4 := MixKey(m.chainingKey, Public(eB));
    var ckA := MixKey(MixKey(ck4, Dh(eA, Public(eB))), Dh(a.params.staticPrivate, Public(eB)));
    var ckB := MixKey(MixKey(ck4, Dh(eB, Public(eA))), Dh(eB, b.params.peerStatic));
    DhCommutes(eA, eB);
    DhCommutes(a.params.staticPrivate, eB);
    assert ckA == ckB;
    if Finish(Hash(m.hash, Public(eB)), ckA, a.params.psk).encNothing
       == Finish(Hash(m.hash, Public(eB)), ckB, b.params.psk).encNothing {
      FinishInjective(Hash(m.hash, Public(eB)), ckA, a.params.psk, Hash(m.hash, Public(eB)), ckB, b.params.psk);
    }
  }

  /**
   The response's `sender` field is under no seal: replacing it changes
   nothing but the index the initiator will send to.
   */
  lemma SenderIndexIsNotSealed(hs: Hs, p: ResponsePacket, other: nat)
    requires ReceiveResponse(hs, p).1.Ok?
    ensures ReceiveResponse(hs, p.(sender := other)) ==
              (ReceiveResponse(hs, p).0, Ok(ReceiveResponse(hs, p).1.value.(sendingIndex := other)))
  {
  }
}
