/**
 Every run of any number of handshake ends over a network an attacker
 controls. The attacker sees every field an honest end sends, owns the private
 scalars in `hostile`, learns more static ones as the run goes on, and delivers
 to any end, at any time and as often as it likes, any packet whose fields it
 can build: so packets are lost, repeated, reordered, misrouted, mixed and
 forged.
 */
module HandshakeRuns {
  import opened SymbolicCrypto
  import opened Handshake

  datatype InitEvent = InitEvent(me: nat, peer: nat, index: nat, stamp: Tai64N, first: FirstMessage)

  /**
   An answer is `honest` if neither static key had been revealed at the time,
   an initiator's session if the peer's had not.
   */
  datatype AnswerEvent = AnswerEvent(
    me: nat, peer: nat, params: Params, packet: InitPacket, box: Opened, response: ResponsePacket, session: Session,
    honest: bool)

  datatype SessionEvent = SessionEvent(
    me: nat, peer: nat, params: Params, response: ResponsePacket, session: Session, honest: bool)

  /**
   `ends` maps (own scalar, peer's scalar) to that end's state. The logs are
   keyed by the fresh ephemeral scalar: of the initiation, of the answer, and
   of the initiation a session came from.
   */
  datatype World = World(
    hostile: set<nat>,
    ends: map<(nat, nat), Hs>,
    inits: map<nat, InitEvent>,
    answers: map<nat, AnswerEvent>,
    sessions: map<nat, SessionEvent>)

  // ---- What the attacker can build ----

  ghost predicate EmittedInInit(w: World, t: Term) {
    exists e :: e in w.inits && (t == w.inits[e].first.encStatic || t == w.inits[e].first.encTimestamp)
  }

  ghost predicate EmittedInAnswer(w: World, t: Term) {
    exists e :: e in w.answers && t == w.answers[e].response.encNothing
  }

  ghost predicate Emitted(w: World, t: Term) {
    EmittedInInit(w, t) || EmittedInAnswer(w, t)
  }

  ghost predicate Known(w: World, t: Term) {
    match t
    case Empty => true
    case Const(_) => true
    case Octets(_) => true
    case Time(_) => true
    case Secret(_) => true
    case Public(_) => true
    case Shared(a, b) => a in w.hostile || b in w.hostile
    case Exp(_, base) => Known(w, base) // a low-order point gives a secret everybody knows
    case Pair(x, y) => Known(w, x) && Known(w, y)
    case Hash(x, y) => Known(w, x) && Known(w, y)
    case Hmac(k, d) => Known(w, k) && Known(w, d)
    case Mac(k, d) => Known(w, k) && Known(w, d)
    case Sealed(k, p, a) => Emitted(w, t) || (Known(w, k) && Known(w, p) && Known(w, a))
  }

  // ---- Steps ----

  datatype Action =
    | Start(me: nat, peer: nat, ephemeral: nat, stamp: Tai64N, msgType: nat)
    | Answer(me: nat, peer: nat, packet: InitPacket, ephemeral: nat, msgType: nat)
    | Complete(me: nat, peer: nat, response: ResponsePacket)
    | Expire(me: nat, peer: nat)
    | Reveal(me: nat, peer: nat)

  /** Neither end's static key is in the attacker's hands. */
  predicate Honest(w: World, me: nat, peer: nat) { me !in w.hostile && peer !in w.hostile }

  /** A scalar nobody drew before and the attacker does not own. */
  ghost predicate FreshScalar(w: World, e: nat) {
    e !in w.inits && e !in w.answers && e !in w.hostile
  }

  ghost predicate Enabled(w: World, a: Action) {
    && (a.me, a.peer) in w.ends
    && match a {
      case Start(_, _, e, _, _) => FreshScalar(w, e)
      case Answer(_, _, p, e, _) =>
        FreshScalar(w, e) && Known(w, p.ephemeral) && Known(w, p.encStatic) && Known(w, p.encTimestamp)
      case Complete(_, _, p) => Known(w, p.ephemeral) && Known(w, p.encNothing)
      case Expire(_, _) => true
      case Reveal(me, _) => me !in w.inits && me !in w.answers
    }
  }

  /** What the action leaves of the end it concerns. */
  function EndAfter(hs: Hs, a: Action): Hs {
    match a
    case Start(_, _, e, stamp, msgType) => FormatInitiation(hs, e, stamp, msgType).0
    case Answer(_, _, p, e, msgType) => ReceiveInitialization(hs, p, e, msgType).0
    case Complete(_, _, p) => ReceiveResponse(hs, p).0
    case Expire(_, _) => SetExpired(hs)
    case Reveal(_, _) => hs
  }

  ghost function Next(w: World, a: Action): World
    requires (a.me, a.peer) in w.ends
  {
    var hs := w.ends[(a.me, a.peer)];
    Logged(w, hs, a).(ends := w.ends[(a.me, a.peer) := EndAfter(hs, a)])
  }

  ghost function Logged(w: World, hs: Hs, a: Action): World {
    match a
    case Start(me, peer, e, stamp, msgType) =>
      var first := FirstAsInitiator(hs.params, e, stamp);
      w.(inits := w.inits[e := InitEvent(me, peer, NextIndex(hs.nextIndex), stamp, first)])
    case Answer(me, peer, p, e, msgType) =>
      var r := ReceiveInitialization(hs, p, e, msgType).1;
      if r.Err? then w else
      w.(answers := w.answers[e := AnsweredBy(w, hs, a, r.value)])
    case Complete(me, peer, p) =>
      var r := ReceiveResponse(hs, p).1;
      if r.Err? then w else
      w.(sessions := w.sessions[Consumed(hs, p).ephemeral := Completed(w, hs, a, r.value)])
    case Expire(_, _) => w
    case Reveal(me, _) => w.(hostile := w.hostile + {me})
  }

  ghost function Completed(w: World, hs: Hs, a: Action, session: Session): SessionEvent
    requires a.Complete?
  {
    SessionEvent(a.me, a.peer, hs.params, a.response, session, a.peer !in w.hostile)
  }

  ghost function AnsweredBy(w: World, hs: Hs, a: Action, r: (ResponsePacket, Session)): AnswerEvent
    requires a.Answer? && OpenFirst(hs.params, a.packet).Ok?
  {
    var box := OpenFirst(hs.params, a.packet).value;
    AnswerEvent(a.me, a.peer, hs.params, a.packet, box, r.0, r.1, Honest(w, a.me, a.peer))
  }

  /** The in-flight handshake a response is matched with. */
  function Consumed(hs: Hs, p: ResponsePacket): (s: InFlight)
    requires Awaits(hs.state, p.receiver) || Awaits(hs.previous, p.receiver)
    ensures s.InitSent?
  {
    if Awaits(hs.state, p.receiver) then hs.state else hs.previous
  }

  ghost predicate Initial(w: World) {
    && w.inits == map[] && w.answers == map[] && w.sessions == map[]
    && forall k <- w.ends ::
         && w.ends[k].params.staticPrivate == k.0 && w.ends[k].params.peerStatic == Public(k.1)
         && w.ends[k] == New(w.ends[k].params, w.ends[k].nextIndex)
  }

  ghost predicate IsRun(worlds: seq<World>, actions: seq<Action>) {
    && |worlds| == |actions| + 1
    && Initial(worlds[0])
    && forall i :: 0 <= i < |actions| ==> Enabled(worlds[i], actions[i]) && worlds[i + 1] == Next(worlds[i], actions[i])
  }

  // ---- Invariant ----

  ghost predicate EndsInPlace(w: World) {
    forall k <- w.ends ::
      w.ends[k].params.staticPrivate == k.0 && w.ends[k].params.peerStatic == Public(k.1)
  }

  ghost predicate InitsInPlace(w: World) {
    forall e <- w.inits ::
      var i := w.inits[e];
      && e !in w.hostile
      && i.first == FirstAsInitiator(Params(i.me, Public(i.peer), Empty), e, i.stamp)
  }

  /** An initiation an end still waits on is one it logged and nobody consumed. */
  ghost predicate Tracks(w: World, k: (nat, nat), s: InFlight) {
    s.InitSent? ==>
      && s.ephemeral in w.inits && s.ephemeral !in w.sessions
      && var i := w.inits[s.ephemeral];
         && i.me == k.0 && i.peer == k.1 && i.index == s.localIndex
         && i.first.hash == s.hash && i.first.chainingKey == s.chainingKey
  }

  /** The two initiations in flight at one end are different ones. */
  predicate FlightsDiffer(hs: Hs) {
    hs.state.InitSent? && hs.previous.InitSent? ==> hs.state.ephemeral != hs.previous.ephemeral
  }

  ghost predicate FlightsInPlace(w: World) {
    forall k <- w.ends ::
      Tracks(w, k, w.ends[k].state) && Tracks(w, k, w.ends[k].previous) && FlightsDiffer(w.ends[k])
  }

  /** An initiation logged under the ephemeral an answer was given to. */
  ghost predicate RepliesTo(w: World, r: AnswerEvent, e: nat) {
    e in w.inits && r.packet.ephemeral == Public(e)
  }

  ghost predicate AnswerInPlace(w: World, e: nat, r: AnswerEvent) {
    && e !in w.hostile
    && (r.honest ==> exists i :: RepliesTo(w, r, i))
    && r.params.staticPrivate == r.me && r.params.peerStatic == Public(r.peer)
    && OpenFirst(r.params, r.packet) == Ok(r.box)
    && Known(w, r.packet.encTimestamp)
    && var m := SecondAsResponder(r.params, r.box, r.packet.ephemeral, e);
       && r.response.ephemeral == Public(e) && r.response.encNothing == m.encNothing
       && r.response.sender == r.session.receivingIndex && r.response.receiver == r.session.sendingIndex
       && r.session.receivingKey == m.toResponder && r.session.sendingKey == m.toInitiator
  }

  ghost predicate AnswersInPlace(w: World) {
    forall e <- w.answers :: AnswerInPlace(w, e, w.answers[e])
  }

  /** The session built from initiation `e` and the answer drawn with `f` belong together. */
  ghost predicate Matches(w: World, e: nat, f: nat)
    requires e in w.sessions && f in w.answers
  {
    var x, r := w.sessions[e], w.answers[f];
    && r.me == x.peer && r.peer == x.me
    && r.packet.ephemeral == Public(e) && x.response.ephemeral == Public(f)
    && x.session.sendingKey == r.session.receivingKey
    && x.session.receivingKey == r.session.sendingKey
    && x.params.psk == r.params.psk
  }

  ghost predicate SessionInPlace(w: World, e: nat, x: SessionEvent)
    requires e in w.sessions
  {
    && e in w.inits && w.inits[e].me == x.me && w.inits[e].peer == x.peer
    && x.session.sendingIndex == x.response.sender && x.session.receivingIndex == x.response.receiver
    && (x.honest ==> exists f :: f in w.answers && Matches(w, e, f))
  }

  ghost predicate SessionsInPlace(w: World) {
    forall e <- w.sessions :: SessionInPlace(w, e, w.sessions[e])
  }

  ghost predicate Invariant(w: World) {
    && EndsInPlace(w)
    && InitsInPlace(w)
    && FlightsInPlace(w)
    && AnswersInPlace(w)
    && SessionsInPlace(w)
  }

  // ---- Secrecy of the key schedule ----

  ghost predicate Extends(w: World, w': World) {
    && w.hostile <= w'.hostile
    && (forall e <- w.inits :: e in w'.inits && w'.inits[e] == w.inits[e])
    && (forall e <- w.answers :: e in w'.answers && w'.answers[e] == w.answers[e])
  }

  lemma {:induction false} KnownGrows(w: World, w': World, t: Term)
    requires Extends(w, w') && Known(w, t)
    ensures Known(w', t)
  {
    match t
    case Exp(_, base) => KnownGrows(w, w', base);
    case Pair(x, y) => KnownGrows(w, w', x); KnownGrows(w, w', y);
    case Hash(x, y) => KnownGrows(w, w', x); KnownGrows(w, w', y);
    case Hmac(x, y) => KnownGrows(w, w', x); KnownGrows(w, w', y);
    case Mac(x, y) => KnownGrows(w, w', x); KnownGrows(w, w', y);
    case Sealed(k, p, a) =>
      if EmittedInInit(w, t) {
        var e :| e in w.inits && (t == w.inits[e].first.encStatic || t == w.inits[e].first.encTimestamp);
        assert e in w'.inits;
      } else if EmittedInAnswer(w, t) {
        var e :| e in w.answers && t == w.answers[e].response.encNothing;
        assert e in w'.answers;
      } else {
        KnownGrows(w, w', k);
        KnownGrows(w, w', p);
        KnownGrows(w, w', a);
      }
    case _ =>
  }

  lemma KnownMixKey(w: World, ck: Term, input: Term)
    requires Known(w, MixKey(ck, input))
    ensures Known(w, ck) && Known(w, input)
  {
  }

  lemma KnownSealKey(w: World, ck: Term, input: Term)
    requires Known(w, SealKey(ck, input))
    ensures Known(w, ck) && Known(w, input)
  {
  }

  /** The secret of two scalars stays out of reach while neither is revealed. */
  lemma StaticSecretUnknown(w: World, me: nat, peer: nat)
    requires me !in w.hostile && peer !in w.hostile
    ensures !Known(w, Dh(me, Public(peer)))
  {
  }

  /** The attacker cannot reach the seal key or the session keys without the chaining key. */
  lemma FinishSecret(w: World, hash: Term, ck: Term, psk: Term)
    requires !Known(w, ck)
    ensures var m := Finish(hash, ck, psk);
      !Known(w, m.encNothing.key) && !Known(w, m.toResponder) && !Known(w, m.toInitiator)
  {
    var temp := Hmac(ck, psk);
    assert !Known(w, temp);
    var ck' := Hmac(temp, ONE);
    assert !Known(w, ck');
    var t1 := Hmac(ck', Empty);
    assert !Known(w, t1);
  }

  lemma ThreeMixesSecret(w: World, ck: Term, x: Term, y: Term, z: Term)
    requires !Known(w, ck)
    ensures !Known(w, MixKey(MixKey(MixKey(ck, x), y), z))
  {
    var ck4 := MixKey(ck, x);
    var ck5 := MixKey(ck4, y);
    if Known(w, ck4) { KnownMixKey(w, ck, x); }
    if Known(w, ck5) { KnownMixKey(w, ck4, y); }
    if Known(w, MixKey(ck5, z)) { KnownMixKey(w, ck5, z); }
  }

  /** The chaining key of a first message to an honest peer is out of reach, whoever sent it. */
  lemma FirstSecret(w: World, params: Params, e: nat, stamp: Tai64N, peer: nat)
    requires params.peerStatic == Public(peer) && e !in w.hostile && peer !in w.hostile
    ensures !Known(w, FirstAsInitiator(params, e, stamp).chainingKey)
  {
    var ck1, es := MixKey(INITIAL_CHAIN_KEY, Public(e)), Dh(e, params.peerStatic);
    var ck2, ss := MixKey(ck1, es), Dh(params.staticPrivate, params.peerStatic);
    StaticSecretUnknown(w, e, peer);
    if Known(w, ck2) { KnownMixKey(w, ck1, es); }
    if Known(w, MixKey(ck2, ss)) { KnownMixKey(w, ck2, ss); }
  }

  lemma OpenedSecret(w: World, params: Params, p: InitPacket, peer: nat)
    requires params.peerStatic == Public(peer) && OpenFirst(params, p).Ok?
    requires Honest(w, params.staticPrivate, peer)
    ensures !Known(w, OpenFirst(params, p).value.chainingKey)
    ensures p.encTimestamp.Sealed? && !Known(w, p.encTimestamp.key)
  {
    var ck2 := MixKey(MixKey(INITIAL_CHAIN_KEY, p.ephemeral), Dh(params.staticPrivate, p.ephemeral));
    var ss := Dh(params.staticPrivate, params.peerStatic);
    StaticSecretUnknown(w, params.staticPrivate, peer);
    if Known(w, MixKey(ck2, ss)) { KnownMixKey(w, ck2, ss); }
    if Known(w, SealKey(ck2, ss)) { KnownSealKey(w, ck2, ss); }
  }

  // ---- Authentication ----

  ghost predicate GenuineInit(i: InitEvent, params: Params, p: InitPacket, peer: nat) {
    && i.me == peer && i.peer == params.staticPrivate
    && p.encStatic == i.first.encStatic && p.encTimestamp == i.first.encTimestamp
    && OpenFirst(params, p) == Ok(Opened(i.stamp, i.first.hash, i.first.chainingKey))
  }

  /** The sealed timestamp pins down who sent it, to whom, and under which ephemeral. */
  lemma InitMatches(params: Params, p: InitPacket, peer: nat, e: nat, i: InitEvent)
    requires params.peerStatic == Public(peer) && OpenFirst(params, p).Ok?
    requires i.first == FirstAsInitiator(Params(i.me, Public(i.peer), Empty), e, i.stamp)
    requires p.encTimestamp == i.first.encStatic || p.encTimestamp == i.first.encTimestamp
    ensures p.ephemeral == Public(e) && GenuineInit(i, params, p, peer)
  {
  }

  lemma TimestampNotInAnswer(w: World, params: Params, p: InitPacket)
    requires AnswersInPlace(w) && OpenFirst(params, p).Ok?
    ensures !EmittedInAnswer(w, p.encTimestamp)
  {
    assert p.encTimestamp.plain.Time?;
    forall f | f in w.answers
      ensures p.encTimestamp != w.answers[f].response.encNothing
    {
      assert AnswerInPlace(w, f, w.answers[f]);
    }
  }

  /** An initiation that opens against an honest peer's key was sent by that peer, to this end. */
  lemma InitiationIsGenuine(w: World, params: Params, p: InitPacket, peer: nat)
    requires InitsInPlace(w) && AnswersInPlace(w)
    requires params.peerStatic == Public(peer) && OpenFirst(params, p).Ok?
    requires Honest(w, params.staticPrivate, peer)
    requires Known(w, p.encTimestamp)
    ensures exists e :: e in w.inits && p.ephemeral == Public(e) && GenuineInit(w.inits[e], params, p, peer)
  {
    OpenedSecret(w, params, p, peer);
    TimestampNotInAnswer(w, params, p);
    var e :| e in w.inits &&
             (p.encTimestamp == w.inits[e].first.encStatic || p.encTimestamp == w.inits[e].first.encTimestamp);
    InitMatches(params, p, peer, e, w.inits[e]);
  }

  ghost predicate GenuineAnswer(r: AnswerEvent, f: nat, params: Params, s: InFlight, p: ResponsePacket, peer: nat)
    requires s.InitSent?
  {
    && r.me == peer && r.peer == params.staticPrivate
    && r.packet.ephemeral == Public(s.ephemeral) && p.ephemeral == Public(f)
    && r.params.psk == params.psk
    && var m := SecondAsInitiator(params, s, p.ephemeral);
       r.session.receivingKey == m.toResponder && r.session.sendingKey == m.toInitiator
  }

  /** Equal transcripts mean the same two ends and the same first ephemeral. */
  lemma TranscriptPinsEnds(params: Params, p: InitPacket, peer: nat, e: nat, i: InitEvent)
    requires params.peerStatic == Public(peer) && OpenFirst(params, p).Ok?
    requires i.first == FirstAsInitiator(Params(i.me, Public(i.peer), Empty), e, i.stamp)
    requires OpenFirst(params, p).value.hash == i.first.hash
    ensures p.ephemeral == Public(e) && i.me == peer && i.peer == params.staticPrivate
  {
  }

  /** The sealed transcript pins down who answered, to whom, and in reply to what. */
  lemma AnswerMatches(w: World, params: Params, s: InFlight, p: ResponsePacket, peer: nat, f: nat)
    requires InitsInPlace(w)
    requires params.peerStatic == Public(peer)
    requires s.InitSent? && Tracks(w, (params.staticPrivate, peer), s)
    requires f in w.answers && AnswerInPlace(w, f, w.answers[f])
    requires p.encNothing == w.answers[f].response.encNothing
    requires p.encNothing == SecondAsInitiator(params, s, p.ephemeral).encNothing
    ensures GenuineAnswer(w.answers[f], f, params, s, p, peer)
  {
    var r, i := w.answers[f], w.inits[s.ephemeral];
    FinishInjective(
      Hash(s.hash, p.ephemeral),
      MixKey(MixKey(MixKey(s.chainingKey, p.ephemeral), Dh(s.ephemeral, p.ephemeral)),
             Dh(params.staticPrivate, p.ephemeral)),
      params.psk,
      Hash(r.box.hash, Public(f)),
      MixKey(MixKey(MixKey(r.box.chainingKey, Public(f)), Dh(f, r.packet.ephemeral)), Dh(f, r.params.peerStatic)),
      r.params.psk);
    TranscriptPinsEnds(r.params, r.packet, r.peer, s.ephemeral, i);
  }

  /** The key that seals the response to an initiation to an honest peer is out of reach. */
  lemma ResponseSecret(w: World, params: Params, s: InFlight, respEphemeral: Term, peer: nat)
    requires InitsInPlace(w)
    requires peer !in w.hostile && params.peerStatic == Public(peer)
    requires s.InitSent? && Tracks(w, (params.staticPrivate, peer), s)
    ensures var m := SecondAsInitiator(params, s, respEphemeral);
      !Known(w, m.encNothing.key) && !Known(w, m.toResponder) && !Known(w, m.toInitiator)
  {
    var i := w.inits[s.ephemeral];
    FirstSecret(w, Params(i.me, Public(i.peer), Empty), s.ephemeral, i.stamp, i.peer);
    var ee, se := Dh(s.ephemeral, respEphemeral), Dh(params.staticPrivate, respEphemeral);
    ThreeMixesSecret(w, s.chainingKey, respEphemeral, ee, se);
    var ck := MixKey(MixKey(MixKey(s.chainingKey, respEphemeral), ee), se);
    FinishSecret(w, Hash(s.hash, respEphemeral), ck, params.psk);
  }

  lemma EmptyBoxNotInInit(w: World, box: Term)
    requires InitsInPlace(w) && box.Sealed? && box.plain == Empty
    ensures !EmittedInInit(w, box)
  {
  }

  /** A response the initiator accepts from an honest peer was computed by that peer for this very initiation. */
  lemma ResponseIsGenuine(w: World, params: Params, s: InFlight, p: ResponsePacket, peer: nat)
    requires InitsInPlace(w) && AnswersInPlace(w)
    requires peer !in w.hostile && params.peerStatic == Public(peer)
    requires s.InitSent? && Tracks(w, (params.staticPrivate, peer), s)
    requires Known(w, p.encNothing) && p.encNothing == SecondAsInitiator(params, s, p.ephemeral).encNothing
    ensures exists f :: f in w.answers && GenuineAnswer(w.answers[f], f, params, s, p, peer)
  {
    ResponseSecret(w, params, s, p.ephemeral, peer);
    EmptyBoxNotInInit(w, p.encNothing);
    var f :| f in w.answers && p.encNothing == w.answers[f].response.encNothing;
    AnswerMatches(w, params, s, p, peer, f);
  }

  // ---- Every step keeps the invariant ----

  lemma EndKeepsParams(hs: Hs, a: Action)
    ensures EndAfter(hs, a).params == hs.params
  {
  }

  lemma LoggedExtends(w: World, hs: Hs, a: Action)
    requires a.Start? || a.Answer? ==> FreshScalar(w, a.ephemeral)
    ensures Extends(w, Logged(w, hs, a)) && Logged(w, hs, a).ends == w.ends
  {
  }

  lemma StepExtends(w: World, a: Action)
    requires (a.me, a.peer) in w.ends
    requires a.Start? || a.Answer? ==> FreshScalar(w, a.ephemeral)
    ensures Extends(w, Next(w, a))
    ensures var w', k := Next(w, a), (a.me, a.peer);
      && w'.ends.Keys == w.ends.Keys && w'.ends[k].params == w.ends[k].params
      && forall j <- w.ends :: j != k ==> w'.ends[j] == w.ends[j]
  {
    LoggedExtends(w, w.ends[(a.me, a.peer)], a);
    EndKeepsParams(w.ends[(a.me, a.peer)], a);
  }

  lemma KeepsEnds(w: World, a: Action)
    requires EndsInPlace(w) && Enabled(w, a)
    ensures EndsInPlace(Next(w, a))
  {
    StepExtends(w, a);
  }

  /** What a step adds to the initiations, if anything. */
  lemma InitsAfter(w: World, a: Action, e: nat)
    requires EndsInPlace(w) && Enabled(w, a) && e in Next(w, a).inits
    ensures e in w.inits ==> Next(w, a).inits[e] == w.inits[e]
    ensures e !in w.inits ==>
      && a.Start? && a.ephemeral == e && e !in w.hostile
      && var i := Next(w, a).inits[e];
         && i.me == a.me && i.stamp == a.stamp
         && i.first == FirstAsInitiator(Params(a.me, Public(i.peer), Empty), e, a.stamp)
  {
    if a.Start? {
      assert FirstAsInitiator(w.ends[(a.me, a.peer)].params, a.ephemeral, a.stamp)
          == FirstAsInitiator(Params(a.me, Public(a.peer), Empty), a.ephemeral, a.stamp);
    }
  }

  lemma KeepsInits(w: World, a: Action)
    requires EndsInPlace(w) && InitsInPlace(w) && Enabled(w, a)
    ensures InitsInPlace(Next(w, a))
  {
    forall e | e in Next(w, a).inits
      ensures var i := Next(w, a).inits[e];
        e !in Next(w, a).hostile && i.first == FirstAsInitiator(Params(i.me, Public(i.peer), Empty), e, i.stamp)
    {
      InitsAfter(w, a, e);
    }
  }

  lemma TracksStill(w: World, w': World, k: (nat, nat), s: InFlight)
    requires Tracks(w, k, s) && Extends(w, w')
    requires s.InitSent? ==> s.ephemeral !in w'.sessions
    ensures Tracks(w', k, s)
  {
  }

  lemma KeepsFlightsStart(w: World, a: Action)
    requires FlightsInPlace(w) && SessionsInPlace(w) && (a.me, a.peer) in w.ends
    requires a.Start? && FreshScalar(w, a.ephemeral)
    ensures FlightsInPlace(Next(w, a))
  {
    var w' := Next(w, a);
    StepExtends(w, a);
    assert a.ephemeral !in w.sessions;
    forall k | k in w'.ends
      ensures Tracks(w', k, w'.ends[k].state) && Tracks(w', k, w'.ends[k].previous)
      ensures FlightsDiffer(w'.ends[k])
    {
      TracksStill(w, w', k, w.ends[k].state);
      TracksStill(w, w', k, w.ends[k].previous);
    }
  }

  lemma KeepsFlightsAnswer(w: World, a: Action)
    requires FlightsInPlace(w) && (a.me, a.peer) in w.ends
    requires (a.Answer? && FreshScalar(w, a.ephemeral)) || a.Expire? || a.Reveal?
    ensures FlightsInPlace(Next(w, a))
  {
    var w' := Next(w, a);
    StepExtends(w, a);
    forall k | k in w'.ends
      ensures Tracks(w', k, w'.ends[k].state) && Tracks(w', k, w'.ends[k].previous)
      ensures FlightsDiffer(w'.ends[k])
    {
      TracksStill(w, w', k, w.ends[k].state);
      TracksStill(w, w', k, w.ends[k].previous);
    }
  }

  lemma KeepsFlightsComplete(w: World, a: Action)
    requires FlightsInPlace(w) && (a.me, a.peer) in w.ends
    requires a.Complete?
    ensures FlightsInPlace(Next(w, a))
  {
    var w', hs := Next(w, a), w.ends[(a.me, a.peer)];
    StepExtends(w, a);
    if ReceiveResponse(hs, a.response).1.Ok? {
      var e := Consumed(hs, a.response).ephemeral;
      assert w'.sessions.Keys == w.sessions.Keys + {e};
      forall k | k in w'.ends
        ensures Tracks(w', k, w'.ends[k].state) && Tracks(w', k, w'.ends[k].previous)
        ensures FlightsDiffer(w'.ends[k])
      {
        assert Tracks(w, k, w.ends[k].state) && Tracks(w, k, w.ends[k].previous);
        assert Tracks(w, (a.me, a.peer), Consumed(hs, a.response));
        if w'.ends[k].state.InitSent? { TracksStill(w, w', k, w'.ends[k].state); }
        if w'.ends[k].previous.InitSent? { TracksStill(w, w', k, w'.ends[k].previous); }
      }
    }
  }

  lemma AnswerStays(w: World, w': World, e: nat)
    requires Extends(w, w') && e in w.answers && AnswerInPlace(w, e, w.answers[e]) && e !in w'.hostile
    ensures AnswerInPlace(w', e, w.answers[e])
  {
    var r := w.answers[e];
    KnownGrows(w, w', r.packet.encTimestamp);
    if r.honest {
      var i :| RepliesTo(w, r, i);
      assert RepliesTo(w', r, i);
    }
  }

  lemma HonestAnswerReplies(w: World, hs: Hs, a: Action)
    requires InitsInPlace(w) && AnswersInPlace(w) && a.Answer? && Known(w, a.packet.encTimestamp)
    requires hs.params.staticPrivate == a.me && hs.params.peerStatic == Public(a.peer)
    requires OpenFirst(hs.params, a.packet).Ok? && Honest(w, a.me, a.peer)
    ensures exists e :: e in w.inits && a.packet.ephemeral == Public(e)
  {
    InitiationIsGenuine(w, hs.params, a.packet, a.peer);
  }

  lemma NewAnswerInPlace(w: World, w': World, hs: Hs, a: Action)
    requires InitsInPlace(w) && AnswersInPlace(w) && Extends(w, w')
    requires a.Answer? && a.ephemeral !in w'.hostile && Known(w, a.packet.encTimestamp)
    requires hs.params.staticPrivate == a.me && hs.params.peerStatic == Public(a.peer)
    requires ReceiveInitialization(hs, a.packet, a.ephemeral, a.msgType).1.Ok?
    ensures var r := ReceiveInitialization(hs, a.packet, a.ephemeral, a.msgType).1.value;
      AnswerInPlace(w', a.ephemeral, AnsweredBy(w, hs, a, r))
  {
    KnownGrows(w, w', a.packet.encTimestamp);
    var r := AnsweredBy(w, hs, a, ReceiveInitialization(hs, a.packet, a.ephemeral, a.msgType).1.value);
    if r.honest {
      HonestAnswerReplies(w, hs, a);
      var i :| i in w.inits && a.packet.ephemeral == Public(i);
      assert RepliesTo(w', r, i);
    }
  }

  /** What a step adds to the answers, if anything. */
  lemma AnswersAfter(w: World, a: Action, e: nat)
    requires (a.me, a.peer) in w.ends && e in Next(w, a).answers
    requires a.Start? || a.Answer? ==> FreshScalar(w, a.ephemeral)
    ensures e in w.answers ==> Next(w, a).answers[e] == w.answers[e]
    ensures e !in w.answers ==>
      && a.Answer? && a.ephemeral == e
      && var hs := w.ends[(a.me, a.peer)]; var r := ReceiveInitialization(hs, a.packet, e, a.msgType).1;
         r.Ok? && Next(w, a).answers[e] == AnsweredBy(w, hs, a, r.value)
  {
  }

  lemma EphemeralsStaySecret(w: World, a: Action, e: nat)
    requires Enabled(w, a) && e !in w.hostile && (e in w.answers || (a.Answer? && a.ephemeral == e))
    ensures e !in Next(w, a).hostile
  {
  }

  lemma KeepsAnswers(w: World, a: Action)
    requires EndsInPlace(w) && InitsInPlace(w) && AnswersInPlace(w) && Enabled(w, a)
    ensures AnswersInPlace(Next(w, a))
  {
    var w', hs := Next(w, a), w.ends[(a.me, a.peer)];
    StepExtends(w, a);
    forall e | e in w'.answers
      ensures AnswerInPlace(w', e, w'.answers[e])
    {
      AnswersAfter(w, a, e);
      EphemeralsStaySecret(w, a, e);
      if e in w.answers {
        AnswerStays(w, w', e);
      } else {
        NewAnswerInPlace(w, w', hs, a);
      }
    }
  }

  /** The step completes a handshake. */
  ghost predicate Completes(w: World, a: Action) {
    a.Complete? && (a.me, a.peer) in w.ends && ReceiveResponse(w.ends[(a.me, a.peer)], a.response).1.Ok?
  }

  /** What a step adds to the sessions, if anything. */
  lemma SessionsAfter(w: World, a: Action, e: nat)
    requires (a.me, a.peer) in w.ends && e in Next(w, a).sessions
    ensures (e in w.sessions && Next(w, a).sessions[e] == w.sessions[e])
         || (&& Completes(w, a) && e == Consumed(w.ends[(a.me, a.peer)], a.response).ephemeral
             && Next(w, a).sessions[e].response == a.response)
  {
  }

  lemma KeepsSessions(w: World, a: Action)
    requires Invariant(w) && Enabled(w, a)
    ensures SessionsInPlace(Next(w, a))
  {
    var w' := Next(w, a);
    StepExtends(w, a);
    forall e | e in w'.sessions
      ensures SessionInPlace(w', e, w'.sessions[e])
    {
      SessionsAfter(w, a, e);
      if e in w.sessions && w.sessions[e] == w'.sessions[e] {
        SessionStays(w, w', e);
      } else {
        NewSessionInPlace(w, a);
      }
    }
  }

  lemma SessionStays(w: World, w': World, e: nat)
    requires Extends(w, w') && e in w.sessions && SessionInPlace(w, e, w.sessions[e])
    requires e in w'.sessions && w'.sessions[e] == w.sessions[e]
    ensures SessionInPlace(w', e, w'.sessions[e])
  {
  }

  lemma CompletionConsumes(w: World, a: Action)
    requires FlightsInPlace(w) && Completes(w, a)
    ensures var k, w' := (a.me, a.peer), Next(w, a);
      var s := Consumed(w.ends[k], a.response);
      var m := SecondAsInitiator(w.ends[k].params, s, a.response.ephemeral);
      && Tracks(w, k, s)
      && a.response.encNothing == m.encNothing
      && w'.hostile == w.hostile && w'.inits == w.inits && w'.answers == w.answers
      && w'.sessions == w.sessions[s.ephemeral := Completed(w, w.ends[k], a,
           Session(a.response.receiver, a.response.sender, m.toInitiator, m.toResponder))]
  {
  }

  /** A session event with the keys of a genuine answer matches that answer. */
  lemma GenuineMatches(w: World, w': World, params: Params, s: InFlight, p: ResponsePacket, peer: nat, f: nat)
    requires s.InitSent? && w'.answers == w.answers && f in w.answers
    requires GenuineAnswer(w.answers[f], f, params, s, p, peer)
    requires s.ephemeral in w'.sessions
    requires var m := SecondAsInitiator(params, s, p.ephemeral);
      && w'.sessions[s.ephemeral].me == params.staticPrivate && w'.sessions[s.ephemeral].peer == peer
      && w'.sessions[s.ephemeral].response == p && w'.sessions[s.ephemeral].params == params
      && w'.sessions[s.ephemeral].session == Session(p.receiver, p.sender, m.toInitiator, m.toResponder)
    ensures Matches(w', s.ephemeral, f)
  {
  }

  lemma NewSessionInPlace(w: World, a: Action)
    requires EndsInPlace(w) && InitsInPlace(w) && FlightsInPlace(w) && AnswersInPlace(w)
    requires Enabled(w, a) && Completes(w, a)
    ensures var e, w' := Consumed(w.ends[(a.me, a.peer)], a.response).ephemeral, Next(w, a);
      e in w'.sessions && SessionInPlace(w', e, w'.sessions[e])
  {
    var w', hs := Next(w, a), w.ends[(a.me, a.peer)];
    var s := Consumed(hs, a.response);
    CompletionConsumes(w, a);
    if a.peer !in w.hostile {
      ResponseIsGenuine(w, hs.params, s, a.response, a.peer);
      var f :| f in w.answers && GenuineAnswer(w.answers[f], f, hs.params, s, a.response, a.peer);
      GenuineMatches(w, w', hs.params, s, a.response, a.peer, f);
    }
  }

  lemma StepKeepsInvariant(w: World, a: Action)
    requires Invariant(w) && Enabled(w, a)
    ensures Invariant(Next(w, a))
  {
    KeepsEnds(w, a);
    KeepsInits(w, a);
    match a {
      case Start(_, _, _, _, _) => KeepsFlightsStart(w, a);
      case Complete(_, _, _) => KeepsFlightsComplete(w, a);
      case _ => KeepsFlightsAnswer(w, a);
    }
    KeepsAnswers(w, a);
    KeepsSessions(w, a);
  }

  lemma {:induction false} RunKeepsInvariant(worlds: seq<World>, actions: seq<Action>, n: nat)
    requires IsRun(worlds, actions) && n < |worlds|
    ensures Invariant(worlds[n])
  {
    if n > 0 {
      RunKeepsInvariant(worlds, actions, n - 1);
      StepKeepsInvariant(worlds[n - 1], actions[n - 1]);
    }
  }

  // ---- The attacker's reach ----

  lemma InitPlainKnown(w: World, i: InitEvent, e: nat)
    requires i.first == FirstAsInitiator(Params(i.me, Public(i.peer), Empty), e, i.stamp)
    ensures i.first.encStatic.Sealed? && Known(w, i.first.encStatic.plain)
    ensures i.first.encTimestamp.Sealed? && Known(w, i.first.encTimestamp.plain)
  {
  }

  lemma InitBoxPlainKnown(w: World, box: Term)
    requires InitsInPlace(w) && EmittedInInit(w, box)
    ensures box.Sealed? && Known(w, box.plain)
  {
    var e :| e in w.inits && (box == w.inits[e].first.encStatic || box == w.inits[e].first.encTimestamp);
    InitPlainKnown(w, w.inits[e], e);
  }

  lemma AnswerBoxPlainKnown(w: World, box: Term)
    requires AnswersInPlace(w) && EmittedInAnswer(w, box)
    ensures box.Sealed? && Known(w, box.plain)
  {
    var f :| f in w.answers && box == w.answers[f].response.encNothing;
    assert AnswerInPlace(w, f, w.answers[f]);
  }

  /**
   `Known` is closed under building terms and under exponentiating with the
   attacker's own scalars; with anybody's, if the point is no public key.
   */
  lemma KnownClosedUnderBuilding(w: World, x: Term, y: Term, z: Term, scalar: nat)
    requires Known(w, x) && Known(w, y) && Known(w, z)
    ensures Known(w, Pair(x, y)) && Known(w, Hash(x, y)) && Known(w, Hmac(x, y)) && Known(w, Mac(x, y))
    ensures Known(w, Sealed(x, y, z)) && (scalar in w.hostile || !x.Public? ==> Known(w, Dh(scalar, x)))
  {
  }

  /** `Known` is closed under opening a box whose key the attacker knows: what honest ends seal is no secret. */
  lemma KnownClosedUnderOpening(w: World, key: Term, plain: Term, aad: Term)
    requires InitsInPlace(w) && AnswersInPlace(w)
    requires Known(w, Sealed(key, plain, aad)) && Known(w, key)
    ensures Known(w, plain)
  {
    var box := Sealed(key, plain, aad);
    if EmittedInInit(w, box) {
      InitBoxPlainKnown(w, box);
    } else if EmittedInAnswer(w, box) {
      AnswerBoxPlainKnown(w, box);
    }
  }

  // ---- Main results, over every run ----

  /** A secret of two ephemerals nobody revealed. */
  lemma MixedSecret(w: World, ck: Term, e: nat, f: nat, x: Term)
    requires e !in w.hostile && f !in w.hostile
    ensures !Known(w, MixKey(MixKey(ck, Dh(f, Public(e))), x))
  {
    var ee := Dh(f, Public(e));
    StaticSecretUnknown(w, f, e);
    if Known(w, MixKey(ck, ee)) { KnownMixKey(w, ck, ee); }
    if Known(w, MixKey(MixKey(ck, ee), x)) { KnownMixKey(w, MixKey(ck, ee), x); }
  }

  /**
   The keys of an answer given while both static keys were unrevealed are out
   of reach, whether or not the initiator ever completes and whatever static
   keys are revealed afterwards.
   */
  lemma AnswerSecret(w: World, f: nat)
    requires InitsInPlace(w) && f in w.answers && AnswerInPlace(w, f, w.answers[f]) && w.answers[f].honest
    ensures !Known(w, w.answers[f].session.receivingKey) && !Known(w, w.answers[f].session.sendingKey)
  {
    var r := w.answers[f];
    var e :| RepliesTo(w, r, e);
    var ck4, se := MixKey(r.box.chainingKey, Public(f)), Dh(f, r.params.peerStatic);
    MixedSecret(w, ck4, e, f, se);
    FinishSecret(w, Hash(r.box.hash, Public(f)), MixKey(MixKey(ck4, Dh(f, Public(e))), se), r.params.psk);
  }

  /** The keys of matching sessions rest on the secret of their two ephemerals. */
  lemma MatchedSecret(w: World, e: nat, f: nat)
    requires InitsInPlace(w) && e in w.inits && e in w.sessions && f in w.answers
    requires AnswerInPlace(w, f, w.answers[f]) && Matches(w, e, f)
    ensures !Known(w, w.sessions[e].session.sendingKey) && !Known(w, w.sessions[e].session.receivingKey)
  {
    var r := w.answers[f];
    var ck4, se := MixKey(r.box.chainingKey, Public(f)), Dh(f, r.params.peerStatic);
    MixedSecret(w, ck4, e, f, se);
    FinishSecret(w, Hash(r.box.hash, Public(f)), MixKey(MixKey(ck4, Dh(f, Public(e))), se), r.params.psk);
  }

  /**
   Every session an initiator completes while its peer's static key is
   unrevealed has a responder session at that peer, built for this initiation,
   with the two keys swapped and the same preshared key; its own static key
   may be in the attacker's hands. Neither key is ever within the attacker's reach, whatever static keys
   are revealed later. The indices are crossed exactly when the response's
   index fields arrived as the responder sent them.
   */
  lemma SessionsAgree(worlds: seq<World>, actions: seq<Action>, n: nat, e: nat)
    requires IsRun(worlds, actions) && n < |worlds|
    requires e in worlds[n].sessions && worlds[n].sessions[e].honest
    ensures exists f :: f in worlds[n].answers && Matches(worlds[n], e, f) && CrossedIffIntact(worlds[n], e, f)
    ensures !Known(worlds[n], worlds[n].sessions[e].session.sendingKey)
    ensures !Known(worlds[n], worlds[n].sessions[e].session.receivingKey)
  {
    var w := worlds[n];
    RunKeepsInvariant(worlds, actions, n);
    assert SessionInPlace(w, e, w.sessions[e]);
    var f :| f in w.answers && Matches(w, e, f);
    assert AnswerInPlace(w, f, w.answers[f]);
    assert CrossedIffIntact(w, e, f);
    MatchedSecret(w, e, f);
  }

  ghost predicate Crossed(w: World, e: nat, f: nat)
    requires e in w.sessions && f in w.answers
  {
    var x, r := w.sessions[e].session, w.answers[f].session;
    x.sendingIndex == r.receivingIndex && x.receivingIndex == r.sendingIndex
  }

  ghost predicate CrossedIffIntact(w: World, e: nat, f: nat)
    requires e in w.sessions && f in w.answers
  {
    var x, r := w.sessions[e].response, w.answers[f].response;
    Crossed(w, e, f) <==> x.sender == r.sender && x.receiver == r.receiver
  }

  // ---- A network that only loses, repeats, reorders and misroutes ----

  /** A response some end sent, field by field. */
  ghost predicate AsSent(w: World, p: ResponsePacket) {
    exists g :: g in w.answers && w.answers[g].response == p
  }

  ghost predicate Untampered(worlds: seq<World>, actions: seq<Action>)
    requires IsRun(worlds, actions)
  {
    forall i :: 0 <= i < |actions| && Completes(worlds[i], actions[i]) ==> AsSent(worlds[i], actions[i].response)
  }

  lemma StillAsSent(w: World, w': World, p: ResponsePacket)
    requires Extends(w, w') && AsSent(w, p)
    ensures AsSent(w', p)
  {
    var g :| g in w.answers && w.answers[g].response == p;
    assert g in w'.answers;
  }

  /** Logs only grow, and what is added to the sessions came from a response as it was sent. */
  ghost predicate Steady(w: World, w': World) {
    && Extends(w, w')
    && forall e <- w'.sessions ::
         (e in w.sessions && w'.sessions[e] == w.sessions[e]) || AsSent(w, w'.sessions[e].response)
  }

  lemma StepIsSteady(w: World, a: Action)
    requires Enabled(w, a) && (Completes(w, a) ==> AsSent(w, a.response))
    ensures Steady(w, Next(w, a))
  {
    StepExtends(w, a);
    forall e | e in Next(w, a).sessions
      ensures (e in w.sessions && Next(w, a).sessions[e] == w.sessions[e]) || AsSent(w, Next(w, a).sessions[e].response)
    {
      SessionsAfter(w, a, e);
    }
  }

  lemma {:induction false} SteadyAsSent(worlds: seq<World>, n: nat, e: nat)
    requires (forall i :: 0 <= i < |worlds| - 1 ==> Steady(worlds[i], worlds[i + 1]))
    requires n < |worlds| && worlds[0].sessions == map[] && e in worlds[n].sessions
    ensures AsSent(worlds[n], worlds[n].sessions[e].response)
  {
    if n > 0 {
      var w, w' := worlds[n - 1], worlds[n];
      assert Steady(worlds[n - 1], worlds[n - 1 + 1]);
      if e in w.sessions && w'.sessions[e] == w.sessions[e] {
        SteadyAsSent(worlds, n - 1, e);
      }
      StillAsSent(w, w', w'.sessions[e].response);
    }
  }

  lemma SessionsAsSent(worlds: seq<World>, actions: seq<Action>, n: nat, e: nat)
    requires IsRun(worlds, actions) && Untampered(worlds, actions) && n < |worlds| && e in worlds[n].sessions
    ensures AsSent(worlds[n], worlds[n].sessions[e].response)
  {
    forall i | 0 <= i < |actions| ensures Steady(worlds[i], worlds[i + 1]) {
      StepIsSteady(worlds[i], actions[i]);
    }
    SteadyAsSent(worlds, n, e);
  }

  /** Where no response is altered, however they are lost, repeated or mixed up, indices are always crossed. */
  lemma UntamperedIsCrossed(worlds: seq<World>, actions: seq<Action>, n: nat, e: nat)
    requires IsRun(worlds, actions) && Untampered(worlds, actions) && n < |worlds|
    requires e in worlds[n].sessions && worlds[n].sessions[e].honest
    ensures exists f :: f in worlds[n].answers && Matches(worlds[n], e, f) && Crossed(worlds[n], e, f)
  {
    var w := worlds[n];
    SessionsAgree(worlds, actions, n, e);
    var f :| f in w.answers && Matches(w, e, f) && CrossedIffIntact(w, e, f);
    SessionsAsSent(worlds, actions, n, e);
    var g :| g in w.answers && w.answers[g].response == w.sessions[e].response;
    RunKeepsInvariant(worlds, actions, n);
    assert AnswerInPlace(w, g, w.answers[g]);
    assert Public(g) == Public(f);
  }

  // ---- One answer, one session ----

  /** Two sessions never rest on the same answer. */
  lemma AgreementIsInjective(w: World, e: nat, e': nat, f: nat)
    requires e in w.sessions && e' in w.sessions && f in w.answers
    requires Matches(w, e, f) && Matches(w, e', f)
    ensures e == e'
  {
    assert w.answers[f].packet.ephemeral == Public(e);
  }

  lemma {:induction false} EachUsesOne(w: World, es: set<nat>, fs: set<nat>)
    requires es <= w.sessions.Keys && fs <= w.answers.Keys
    requires forall e <- es :: exists f :: f in fs && Matches(w, e, f)
    ensures |es| <= |fs|
  {
    if es != {} {
      var e :| e in es;
      var f :| f in fs && Matches(w, e, f);
      forall e' | e' in es - {e} ensures exists f' :: f' in fs - {f} && Matches(w, e', f') {
        var f' :| f' in fs && Matches(w, e', f');
        if f' == f { AgreementIsInjective(w, e, e', f); }
      }
      EachUsesOne(w, es - {e}, fs - {f});
    }
  }

  ghost function HonestSessions(w: World): set<nat> {
    set e | e in w.sessions && w.sessions[e].honest
  }

  lemma HonestSessionsMatch(w: World)
    requires SessionsInPlace(w)
    ensures forall e <- HonestSessions(w) :: exists f :: f in w.answers.Keys && Matches(w, e, f)
  {
    forall e | e in HonestSessions(w) ensures exists f :: f in w.answers.Keys && Matches(w, e, f) {
      assert SessionInPlace(w, e, w.sessions[e]);
    }
  }

  /** So every such session uses up an answer: there are never more of them than answers. */
  lemma NoMoreSessionsThanAnswers(worlds: seq<World>, actions: seq<Action>, n: nat)
    requires IsRun(worlds, actions) && n < |worlds|
    ensures |HonestSessions(worlds[n])| <= |worlds[n].answers.Keys|
  {
    RunKeepsInvariant(worlds, actions, n);
    HonestSessionsMatch(worlds[n]);
    EachUsesOne(worlds[n], HonestSessions(worlds[n]), worlds[n].answers.Keys);
  }

  lemma StepKeepsSessions(w: World, a: Action)
    requires (a.me, a.peer) in w.ends
    ensures w.sessions.Keys <= Next(w, a).sessions.Keys
  {
  }

  lemma {:induction false} SessionsGrow(worlds: seq<World>, actions: seq<Action>, m: nat, n: nat)
    requires IsRun(worlds, actions) && m <= n < |worlds|
    ensures worlds[m].sessions.Keys <= worlds[n].sessions.Keys
    decreases n - m
  {
    if m < n {
      SessionsGrow(worlds, actions, m, n - 1);
      StepKeepsSessions(worlds[n - 1], actions[n - 1]);
    }
  }

  lemma ExtendsTransitive(w: World, w': World, w'': World)
    requires Extends(w, w') && Extends(w', w'')
    ensures Extends(w, w'')
  {
  }

  lemma {:induction false} ExtendsAlong(worlds: seq<World>, m: nat, n: nat)
    requires forall i :: 0 <= i < |worlds| - 1 ==> Extends(worlds[i], worlds[i + 1])
    requires m <= n < |worlds|
    ensures Extends(worlds[m], worlds[n])
    decreases n - m
  {
    if m < n {
      ExtendsAlong(worlds, m, n - 1);
      assert Extends(worlds[n - 1], worlds[n - 1 + 1]);
      ExtendsTransitive(worlds[m], worlds[n - 1], worlds[n]);
    }
  }

  lemma LogsGrow(worlds: seq<World>, actions: seq<Action>, m: nat, n: nat)
    requires IsRun(worlds, actions) && m <= n < |worlds|
    ensures Extends(worlds[m], worlds[n])
  {
    forall i | 0 <= i < |actions| ensures Extends(worlds[i], worlds[i + 1]) {
      StepExtends(worlds[i], actions[i]);
    }
    ExtendsAlong(worlds, m, n);
  }

  /** The sealed field of an accepted response determines the initiation it consumed. */
  lemma ConsumptionPinsInit(
      w: World, w': World, params: Params, params': Params, k: (nat, nat), k': (nat, nat),
      s: InFlight, s': InFlight, x: Term, x': Term)
    requires InitsInPlace(w') && Extends(w, w')
    requires s.InitSent? && Tracks(w, k, s) && s'.InitSent? && Tracks(w', k', s')
    requires SecondAsInitiator(params, s, x).encNothing == SecondAsInitiator(params', s', x').encNothing
    ensures s.ephemeral == s'.ephemeral
  {
  }

  /** A response is consumed at most once: no two completing steps of a run accept the same sealed field. */
  lemma ResponseConsumedOnce(worlds: seq<World>, actions: seq<Action>, m: nat, n: nat)
    requires IsRun(worlds, actions) && m < n < |actions|
    requires Completes(worlds[m], actions[m]) && Completes(worlds[n], actions[n])
    ensures actions[m].response.encNothing != actions[n].response.encNothing
  {
    var w, w', a, a' := worlds[m], worlds[n], actions[m], actions[n];
    RunKeepsInvariant(worlds, actions, m);
    RunKeepsInvariant(worlds, actions, n);
    LogsGrow(worlds, actions, m, n);
    SessionsGrow(worlds, actions, m + 1, n);
    CompletionConsumes(w, a);
    CompletionConsumes(w', a');
    if a.response.encNothing == a'.response.encNothing {
      var k, k' := (a.me, a.peer), (a'.me, a'.peer);
      ConsumptionPinsInit(w, w', w.ends[k].params, w'.ends[k'].params, k, k',
                          Consumed(w.ends[k], a.response), Consumed(w'.ends[k'], a'.response),
                          a.response.ephemeral, a'.response.ephemeral);
    }
  }

  /** The step accepts an initiation. */
  ghost predicate Accepts(w: World, a: Action) {
    && a.Answer? && (a.me, a.peer) in w.ends
    && ReceiveInitialization(w.ends[(a.me, a.peer)], a.packet, a.ephemeral, a.msgType).1.Ok?
  }

  function Stamp(w: World, a: Action): Tai64N
    requires Accepts(w, a)
  {
    OpenFirst(w.ends[(a.me, a.peer)].params, a.packet).value.stamp
  }

  lemma EndGateAdvances(hs: Hs, a: Action)
    ensures EndAfter(hs, a).lastTimestamp == hs.lastTimestamp || EndAfter(hs, a).lastTimestamp.After(hs.lastTimestamp)
  {
  }

  /** An end's gate is where it was or later. */
  ghost predicate GateAdvances(w: World, w': World, k: (nat, nat)) {
    k in w.ends ==>
      && k in w'.ends
      && var before, after := w.ends[k].lastTimestamp, w'.ends[k].lastTimestamp; after == before || after.After(before)
  }

  lemma StepAdvancesGate(w: World, a: Action, k: (nat, nat))
    requires (a.me, a.peer) in w.ends
    ensures GateAdvances(w, Next(w, a), k)
  {
    EndGateAdvances(w.ends[(a.me, a.peer)], a);
  }

  lemma {:induction false} GateAlong(worlds: seq<World>, m: nat, n: nat, k: (nat, nat))
    requires forall i :: 0 <= i < |worlds| - 1 ==> GateAdvances(worlds[i], worlds[i + 1], k)
    requires m <= n < |worlds|
    ensures GateAdvances(worlds[m], worlds[n], k)
    decreases n - m
  {
    if m < n {
      GateAlong(worlds, m, n - 1, k);
      assert GateAdvances(worlds[n - 1], worlds[n - 1 + 1], k);
    }
  }

  lemma GateNeverFallsBack(worlds: seq<World>, actions: seq<Action>, m: nat, n: nat, k: (nat, nat))
    requires IsRun(worlds, actions) && m <= n < |worlds|
    ensures GateAdvances(worlds[m], worlds[n], k)
  {
    forall i | 0 <= i < |actions| ensures GateAdvances(worlds[i], worlds[i + 1], k) {
      StepAdvancesGate(worlds[i], actions[i], k);
    }
    GateAlong(worlds, m, n, k);
  }

  /** An accepted initiation from an honest peer is one that peer sent to this end. */
  lemma AcceptedInitiationIsGenuine(worlds: seq<World>, actions: seq<Action>, n: nat)
    requires IsRun(worlds, actions) && n < |actions|
    requires Accepts(worlds[n], actions[n]) && Honest(worlds[n], actions[n].me, actions[n].peer)
    ensures var a := actions[n];
      exists e :: e in worlds[n].inits && a.packet.ephemeral == Public(e)
        && GenuineInit(worlds[n].inits[e], worlds[n].ends[(a.me, a.peer)].params, a.packet, a.peer)
  {
    var w, a := worlds[n], actions[n];
    RunKeepsInvariant(worlds, actions, n);
    InitiationIsGenuine(w, w.ends[(a.me, a.peer)].params, a.packet, a.peer);
  }

  lemma AcceptSetsGate(hs: Hs, a: Action)
    requires a.Answer? && ReceiveInitialization(hs, a.packet, a.ephemeral, a.msgType).1.Ok?
    ensures var stamp := OpenFirst(hs.params, a.packet).value.stamp;
      && stamp.After(hs.lastTimestamp) && EndAfter(hs, a).lastTimestamp == stamp
      && a.packet.encTimestamp.Sealed? && a.packet.encTimestamp.plain == Time(stamp)
  {
  }

  lemma AcceptsLater(w: World, a: Action, w': World, b: Action)
    requires Accepts(w, a) && Accepts(w', b) && a.me == b.me && a.peer == b.peer
    requires GateAdvances(Next(w, a), w', (a.me, a.peer))
    ensures Stamp(w', b).After(Stamp(w, a)) && a.packet.encTimestamp != b.packet.encTimestamp
  {
    var k := (a.me, a.peer);
    AcceptSetsGate(w.ends[k], a);
    AcceptSetsGate(w'.ends[k], b);
  }

  /** The timestamps an end accepts strictly increase, so it accepts no initiation twice. */
  lemma AcceptedTimestampsIncrease(worlds: seq<World>, actions: seq<Action>, m: nat, n: nat)
    requires IsRun(worlds, actions) && m < n < |actions|
    requires Accepts(worlds[m], actions[m]) && Accepts(worlds[n], actions[n])
    requires actions[m].me == actions[n].me && actions[m].peer == actions[n].peer
    ensures Stamp(worlds[n], actions[n]).After(Stamp(worlds[m], actions[m]))
    ensures actions[m].packet.encTimestamp != actions[n].packet.encTimestamp
  {
    GateNeverFallsBack(worlds, actions, m + 1, n, (actions[m].me, actions[m].peer));
    AcceptsLater(worlds[m], actions[m], worlds[n], actions[n]);
  }

  // ---- Indices of the two handshakes in flight ----

  predicate IndicesInPlace(hs: Hs, peerPart: nat) {
    && hs.nextIndex / 0x100 == peerPart
    && (hs.state.InitSent? ==> hs.state.localIndex == hs.nextIndex)
    && (hs.previous.InitSent? ==>
          NextIndex(hs.previous.localIndex) == hs.nextIndex && hs.previous.localIndex / 0x100 == peerPart)
  }

  lemma NextIndexMoves(index: nat)
    ensures NextIndex(index) != index && NextIndex(index) / 0x100 == index / 0x100
  {
  }

  lemma EndKeepsIndices(hs: Hs, a: Action, peerPart: nat)
    requires IndicesInPlace(hs, peerPart)
    ensures IndicesInPlace(EndAfter(hs, a), peerPart)
  {
  }

  lemma {:induction false} RunKeepsIndices(worlds: seq<World>, actions: seq<Action>, n: nat, k: (nat, nat))
    requires IsRun(worlds, actions) && n < |worlds| && k in worlds[0].ends
    ensures k in worlds[n].ends && IndicesInPlace(worlds[n].ends[k], worlds[0].ends[k].nextIndex / 0x100)
  {
    if n > 0 {
      RunKeepsIndices(worlds, actions, n - 1, k);
      EndKeepsIndices(worlds[n - 1].ends[k], actions[n - 1], worlds[0].ends[k].nextIndex / 0x100);
    }
  }

  /** Two initiations in flight at one end never share an index, and both carry the end's peer part. */
  lemma InFlightIndicesDiffer(worlds: seq<World>, actions: seq<Action>, n: nat, k: (nat, nat))
    requires IsRun(worlds, actions) && n < |worlds| && k in worlds[0].ends
    ensures k in worlds[n].ends
    ensures var hs := worlds[n].ends[k];
      hs.state.InitSent? && hs.previous.InitSent? ==>
        && hs.state.localIndex != hs.previous.localIndex
        && hs.state.localIndex / 0x100 == hs.previous.localIndex / 0x100 == worlds[0].ends[k].nextIndex / 0x100
  {
    RunKeepsIndices(worlds, actions, n, k);
    var hs := worlds[n].ends[k];
    if hs.previous.InitSent? {
      NextIndexMoves(hs.previous.localIndex);
    }
  }
}
