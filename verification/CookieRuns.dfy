/**
 One end of the cookie exchange over time: the handshake state together with
 the timers that drive it, along every run of clock ticks, packets to send and
 packets received. A cookie is dropped by a tick that finds it too old, so
 whether the next message passes a loaded limiter depends on both ends' clocks.
 */
module CookieRuns {
  import opened Options
  import opened SymbolicCrypto
  import opened Handshake
  import opened CookieExchange
  import T = Timers

  /** One end: its handshake, its timers, and the latest reading of its clock. */
  datatype Moment = Moment(hs: Hs, tunnel: T.Tunnel, clock: nat)

  /** What an initiation draws besides its timings. */
  datatype Draw = Draw(ephemeral: nat, stamp: Tai64N, msgType: nat)

  datatype Event =
    | TimerTick(readings: T.Readings, picks: T.Picks, room: bool, draw: Draw)
    | SendPacket(empty: bool, room: bool, roll: T.Roll, at: nat, draw: Draw)
    | TakeInit(init: InitPacket, ephemeral: nat, msgType: nat, at: nat)
    | TakeResponse(response: ResponsePacket, at: nat)
    | TakeData(index: nat, opens: bool, carries: bool)
    | TakeCookie(reply: CookieReply)
    | SetKey(private: nat)

  // ---- Steps ----

  /** What an event is to the timers; a refused packet is nothing to them. */
  function TimerEvent(m: Moment, e: Event): Option<T.Event> {
    match e
    case TimerTick(r, p, room, _) => Some(T.TimerTick(r, p, room))
    case SendPacket(empty, room, roll, at, _) => Some(T.SendPacket(empty, room, roll, at))
    case TakeInit(p, ephemeral, msgType, at) =>
      if ReceiveInitialization(m.hs, p, ephemeral, msgType).1.Ok?
      then Some(T.AnswerInit(NextIndex(m.hs.nextIndex), at)) else None
    case TakeResponse(p, at) => Some(T.TakeResponse(p.receiver, ReceiveResponse(m.hs, p).1.Ok?, at))
    case TakeData(index, opens, carries) => Some(T.TakeData(index, opens, carries))
    case TakeCookie(reply) => if ReceiveCookieReply(m.hs, reply).1.Ok? then Some(T.TakeCookie) else None
    case SetKey(_) => Some(T.SetKey)
  }

  /** The clock does not go back, the draws are the configured ones, and an initiation takes the next index. */
  predicate Enabled(c: T.Timing, m: Moment, e: Event) {
    && (TimerEvent(m, e).Some? ==> T.Timely(c, m.clock, TimerEvent(m, e).value))
    && (e.TimerTick? ==> e.picks.roll.index == NextIndex(m.hs.nextIndex))
    && (e.SendPacket? ==> e.roll.index == NextIndex(m.hs.nextIndex))
  }

  /** What a tick or a packet to send leads to. */
  ghost function ActionOf(c: T.Timing, m: Moment, e: Event): T.Action
    requires T.Good(m.tunnel, m.clock) && Enabled(c, m, e)
  {
    match e
    case TimerTick(r, p, room, _) => T.Tick(c, m.tunnel, r, p, room).action
    case SendPacket(empty, room, roll, at, _) => T.Encapsulate(m.tunnel, empty, room, roll, at).action
    case _ => T.Done
  }

  /** A tick of an unexpired tunnel at or past the cookie's time. */
  predicate Drops(m: Moment, e: Event)
    requires m.tunnel.Sized()
  {
    e.TimerTick? && !m.tunnel.state.Expired?
    && e.readings.now >= m.tunnel.timers[T.COOKIE_RECEIVED] + T.COOKIE_EXPIRATION
  }

  function CookieCleared(hs: Hs): Hs { hs.(cookies := hs.cookies.(writeCookie := None)) }

  /** The handshake when a tick comes to decide what to do. */
  function Ticked(m: Moment, e: Event): Hs
    requires m.tunnel.Sized()
  {
    if Drops(m, e) then CookieCleared(m.hs) else m.hs
  }

  function Initiated(hs: Hs, d: Draw): (Hs, InitPacket) {
    FormatInitiation(hs, d.ephemeral, d.stamp, d.msgType)
  }

  ghost function HsAfter(c: T.Timing, m: Moment, e: Event): Hs
    requires T.Good(m.tunnel, m.clock) && Enabled(c, m, e)
  {
    match e
    case TimerTick(_, _, _, d) =>
      var hs := Ticked(m, e);
      if ActionOf(c, m, e) == T.Initiated then Initiated(hs, d).0
      else if ActionOf(c, m, e) == T.ConnectionExpired && !m.tunnel.state.Expired? then SetExpired(hs)
      else hs
    case SendPacket(_, _, _, _, d) => if ActionOf(c, m, e) == T.Initiated then Initiated(m.hs, d).0 else m.hs
    case TakeInit(p, ephemeral, msgType, _) => ReceiveInitialization(m.hs, p, ephemeral, msgType).0
    case TakeResponse(p, _) => ReceiveResponse(m.hs, p).0
    case TakeData(_, _, _) => m.hs
    case TakeCookie(reply) => ReceiveCookieReply(m.hs, reply).0
    case SetKey(private) => m.hs.(params := m.hs.params.(staticPrivate := private))
  }

  ghost function Next(c: T.Timing, m: Moment, e: Event): Moment
    requires T.Good(m.tunnel, m.clock) && Enabled(c, m, e)
  {
    match TimerEvent(m, e)
    case None => m.(hs := HsAfter(c, m, e))
    case Some(t) => Moment(HsAfter(c, m, e), T.Next(c, m.tunnel, m.clock, t), T.ClockAfter(m.clock, t))
  }

  /** The handshake message an event sends. */
  ghost function Sent(c: T.Timing, m: Moment, e: Event): Option<Message>
    requires T.Good(m.tunnel, m.clock) && Enabled(c, m, e)
  {
    match e
    case TimerTick(_, _, _, d) =>
      if ActionOf(c, m, e) == T.Initiated then Some(OfInit(Initiated(Ticked(m, e), d).1)) else None
    case SendPacket(_, _, _, _, d) =>
      if ActionOf(c, m, e) == T.Initiated then Some(OfInit(Initiated(m.hs, d).1)) else None
    case TakeInit(p, ephemeral, msgType, _) =>
      var r := ReceiveInitialization(m.hs, p, ephemeral, msgType).1;
      if r.Ok? then Some(OfResponse(r.value.0)) else None
    case _ => None
  }

  /** The end takes a new cookie. */
  predicate TakesCookie(m: Moment, e: Event) {
    e.TakeCookie? && ReceiveCookieReply(m.hs, e.reply).1.Ok?
  }

  // ---- The two halves stay together ----

  /** The phase the timers see is the state of the handshake. */
  predicate Agree(f: InFlight, p: T.Phase) {
    && (f.InitSent? <==> p.InitSent?)
    && (f.Expired? <==> p.Expired?)
    && (f.InitSent? ==> f.localIndex == p.index)
  }

  ghost predicate Coupled(m: Moment) {
    && T.Good(m.tunnel, m.clock)
    && Agree(m.hs.state, m.tunnel.state)
    && Agree(m.hs.previous, m.tunnel.previous)
    && (m.hs.cookies.writeCookie.Some? <==> m.tunnel.hasCookie)
  }

  /** An outcome leaves phases and cookie register alone, starts a handshake, or gives up and clears the timers. */
  predicate Phases(s: T.Tunnel, o: T.Effect, index: nat, now: nat) {
    && s.Sized() && o.tunnel.Sized()
    && o.tunnel.hasCookie == s.hasCookie
    && (match o.action
        case Initiated => o.tunnel.previous == s.state && o.tunnel.state.InitSent? && o.tunnel.state.index == index
        case ConnectionExpired => o.tunnel.previous.Expired? && o.tunnel.state.Expired?
        case _ => o.tunnel.previous == s.previous && o.tunnel.state == s.state)
    && o.tunnel.timers[T.COOKIE_RECEIVED] ==
         if o.action.ConnectionExpired? || (o.action.Initiated? && s.state.Expired?) then now
         else s.timers[T.COOKIE_RECEIVED]
  }

  lemma InitiatePhases(s: T.Tunnel, force: bool, room: bool, roll: T.Roll, now: nat)
    requires s.Sized()
    ensures var o := T.Initiate(s, force, room, roll, now);
      Phases(s, o, roll.index, now) && o.action != T.ConnectionExpired
  {
  }

  lemma EncapsulatePhases(s: T.Tunnel, empty: bool, room: bool, roll: T.Roll, now: nat)
    requires s.Sized()
    ensures var o := T.Encapsulate(s, empty, room, roll, now);
      Phases(s, o, roll.index, now) && o.action != T.ConnectionExpired
  {
    InitiatePhases(s, false, room, roll, now);
  }

  lemma RenewedPhases(c: T.Timing, s: T.Tunnel, p: T.Picks)
    requires s.Sized()
    ensures var o := T.PersistentRenewed(c, s, p);
      && o.Sized() && o.state == s.state && o.previous == s.previous && o.hasCookie == s.hasCookie
      && o.timers[T.COOKIE_RECEIVED] == s.timers[T.COOKIE_RECEIVED]
  {
  }

  lemma KeepalivePhases(c: T.Timing, s: T.Tunnel, p: T.Picks, room: bool, now: nat)
    requires s.Sized() && s.timers[T.SENT] <= s.Now() && s.timers[T.PERSISTENT] <= s.Now()
    ensures Phases(s, T.Keepalive(c, s, p, room, now), p.roll.index, now)
  {
    var a := if T.Owed(s, p) then s.(wantKeepalive := false) else s;
    RenewedPhases(c, a, p);
    EncapsulatePhases(if T.PersistentDue(c, a) then T.PersistentRenewed(c, a, p) else a, true, room, p.roll, now);
  }

  lemma QuietPhases(c: T.Timing, s: T.Tunnel, p: T.Picks, room: bool, now: nat)
    requires s.Sized() && forall i :: 0 <= i < T.TOP ==> s.timers[i] <= s.Now()
    ensures Phases(s, T.Quiet(c, s, p, room, now), p.roll.index, now)
  {
    var a := if T.Unanswered(c, s, p) then s.(wantHandshake := false) else s;
    InitiatePhases(a, true, room, p.roll, now);
    KeepalivePhases(c, a, p, room, now);
  }

  lemma GivenUpPhases(s: T.Tunnel, index: nat, now: nat)
    requires s.Sized()
    ensures Phases(s, T.Effect(T.GivenUp(s, now), T.ConnectionExpired), index, now)
  {
  }

  lemma ProceedPhases(c: T.Timing, s: T.Tunnel, r: T.Readings, p: T.Picks, room: bool)
    requires s.Sized() && s.Now() == r.now && forall i :: 0 <= i < T.TOP ==> s.timers[i] <= s.Now()
    ensures Phases(s, T.Proceed(c, s, r, p, room), p.roll.index, r.later)
  {
    GivenUpPhases(s, p.roll.index, r.later);
    if s.state.InitSent? {
      InitiatePhases(s, true, room, p.roll, r.later);
    } else {
      QuietPhases(c, s, p, room, r.later);
    }
  }

  /** Once the time is in, the old sessions out and an old cookie dropped. */
  function Prepared(c: T.Timing, s: T.Tunnel, r: T.Readings): T.Tunnel
    requires s.Sized() && (forall i :: 0 <= i < T.TOP ==> s.timers[i] <= r.now)
    requires forall i :: 0 <= i < T.N_SESSIONS ==> s.sessionTimers[i] <= r.now
  {
    T.CookieDropped(T.Entered(s, r.now, c.Reject()))
  }

  lemma PreparedPhases(c: T.Timing, s: T.Tunnel, r: T.Readings, clock: nat)
    requires T.Good(s, clock) && clock <= r.now
    ensures var d := Prepared(c, s, r);
      && T.Good(d, r.now) && d.Now() == r.now && d.state == s.state && d.previous == s.previous
      && d.timers[T.COOKIE_RECEIVED] == s.timers[T.COOKIE_RECEIVED]
      && (d.hasCookie <==> s.hasCookie && r.now < s.timers[T.COOKIE_RECEIVED] + T.COOKIE_EXPIRATION)
  {
    T.EnteredKeeps(s, clock, r.now, c.Reject());
  }

  lemma ExpiredTick(c: T.Timing, s: T.Tunnel, r: T.Readings, p: T.Picks, room: bool, clock: nat)
    requires T.Good(s, clock) && clock <= r.now && r.Ordered() && s.state.Expired?
    ensures var o := T.Tick(c, s, r, p, room);
      && o.action == T.ConnectionExpired && o.tunnel.state == s.state && o.tunnel.previous == s.previous
      && o.tunnel.hasCookie == s.hasCookie && o.tunnel.Sized()
      && o.tunnel.timers[T.COOKIE_RECEIVED] == s.timers[T.COOKIE_RECEIVED]
  {
  }

  lemma LiveTick(c: T.Timing, s: T.Tunnel, r: T.Readings, p: T.Picks, room: bool, clock: nat)
    requires T.Good(s, clock) && clock <= r.now && r.Ordered() && !s.state.Expired?
    ensures T.Tick(c, s, r, p, room) == T.Proceed(c, Prepared(c, s, r), r, p, room)
    ensures Phases(Prepared(c, s, r), T.Tick(c, s, r, p, room), p.roll.index, r.later)
  {
    PreparedPhases(c, s, r, clock);
    ProceedPhases(c, Prepared(c, s, r), r, p, room);
  }

  // ---- Every step keeps them together ----

  lemma ExpiredTickCoupled(c: T.Timing, m: Moment, e: Event)
    requires Coupled(m) && Enabled(c, m, e) && e.TimerTick? && m.tunnel.state.Expired?
    ensures Coupled(Next(c, m, e))
  {
    T.StepKeepsGood(c, m.tunnel, m.clock, TimerEvent(m, e).value);
    ExpiredTick(c, m.tunnel, e.readings, e.picks, e.room, m.clock);
  }

  /** The handshake after a tick that did this, as the phases have it. */
  lemma TickedStates(s: T.Tunnel, o: T.Effect, hs: Hs, d: Draw, now: nat)
    requires Phases(s, o, NextIndex(hs.nextIndex), now)
    requires Agree(hs.state, s.state) && Agree(hs.previous, s.previous)
    requires hs.cookies.writeCookie.Some? <==> s.hasCookie
    ensures var hs' := if o.action == T.Initiated then Initiated(hs, d).0
                       else if o.action == T.ConnectionExpired then SetExpired(hs) else hs;
      && Agree(hs'.state, o.tunnel.state) && Agree(hs'.previous, o.tunnel.previous)
      && (hs'.cookies.writeCookie.Some? <==> o.tunnel.hasCookie)
  {
  }

  lemma LiveTickCoupled(c: T.Timing, m: Moment, e: Event)
    requires Coupled(m) && Enabled(c, m, e) && e.TimerTick? && !m.tunnel.state.Expired?
    ensures Coupled(Next(c, m, e))
  {
    T.StepKeepsGood(c, m.tunnel, m.clock, TimerEvent(m, e).value);
    PreparedPhases(c, m.tunnel, e.readings, m.clock);
    LiveTick(c, m.tunnel, e.readings, e.picks, e.room, m.clock);
    var o := T.Tick(c, m.tunnel, e.readings, e.picks, e.room);
    TickedStates(Prepared(c, m.tunnel, e.readings), o, Ticked(m, e), e.draw, e.readings.later);
  }

  lemma SendCoupled(c: T.Timing, m: Moment, e: Event)
    requires Coupled(m) && Enabled(c, m, e) && e.SendPacket?
    ensures Coupled(Next(c, m, e))
  {
    T.StepKeepsGood(c, m.tunnel, m.clock, TimerEvent(m, e).value);
    EncapsulatePhases(m.tunnel, e.empty, e.room, e.roll, e.at);
  }

  lemma AnsweredPhases(s: T.Tunnel, index: nat, at: nat)
    requires s.Sized()
    ensures var o := T.Answered(s, index, at);
      && o.Sized() && o.state == T.Idle && o.previous == s.state && o.hasCookie == s.hasCookie
      && o.timers[T.COOKIE_RECEIVED] == s.timers[T.COOKIE_RECEIVED]
  {
  }

  lemma CompletedPhases(s: T.Tunnel, index: nat, at: nat)
    requires s.Sized()
    ensures var o := T.Completed(s, index, at);
      && o.Sized() && o.state == s.state && o.previous == s.previous && o.hasCookie == s.hasCookie
      && o.timers[T.COOKIE_RECEIVED] == s.timers[T.COOKIE_RECEIVED]
  {
  }

  lemma RespondedPhases(s: T.Tunnel, index: nat, authentic: bool, at: nat)
    requires s.Sized()
    ensures var o := T.Responded(s, index, authentic, at);
      var ours := s.state.InitSent? && s.state.index == index;
      var older := !ours && s.previous.InitSent? && s.previous.index == index;
      && o.Sized() && o.hasCookie == s.hasCookie
      && o.timers[T.COOKIE_RECEIVED] == s.timers[T.COOKIE_RECEIVED]
      && o.state == (if authentic && ours then T.Idle else s.state)
      && o.previous == (if authentic && older then T.Idle else s.previous)
  {
    CompletedPhases(s.(state := T.Idle), index, at);
    CompletedPhases(s.(previous := T.Idle), index, at);
  }

  lemma TakeInitCoupled(c: T.Timing, m: Moment, e: Event)
    requires Coupled(m) && Enabled(c, m, e) && e.TakeInit?
    ensures Coupled(Next(c, m, e))
  {
    if TimerEvent(m, e).Some? {
      T.StepKeepsGood(c, m.tunnel, m.clock, TimerEvent(m, e).value);
      AnsweredPhases(m.tunnel, NextIndex(m.hs.nextIndex), e.at);
    }
  }

  /** What a response leaves of the handshake, given which state it completes. */
  lemma ReceivedStates(hs: Hs, p: ResponsePacket)
    ensures var (o, r) := ReceiveResponse(hs, p);
      var ours := Awaits(hs.state, p.receiver); var older := !ours && Awaits(hs.previous, p.receiver);
      && o.cookies == hs.cookies && o.params == hs.params && (r.Ok? ==> ours || older)
      && o.state == (if r.Ok? && ours then NoHandshake else hs.state)
      && o.previous == (if r.Ok? && older then NoHandshake else hs.previous)
  {
  }

  lemma TakeResponseCoupled(c: T.Timing, m: Moment, e: Event)
    requires Coupled(m) && Enabled(c, m, e) && e.TakeResponse?
    ensures Coupled(Next(c, m, e))
  {
    T.StepKeepsGood(c, m.tunnel, m.clock, TimerEvent(m, e).value);
    RespondedPhases(m.tunnel, e.response.receiver, ReceiveResponse(m.hs, e.response).1.Ok?, e.at);
    ReceivedStates(m.hs, e.response);
  }

  lemma DataPhases(s: T.Tunnel, index: nat, opens: bool, carries: bool)
    requires s.Sized()
    ensures var o := T.DataArrived(s, index, opens, carries);
      && o.Sized() && o.state == s.state && o.previous == s.previous && o.hasCookie == s.hasCookie
      && o.timers[T.COOKIE_RECEIVED] == s.timers[T.COOKIE_RECEIVED]
  {
  }

  lemma TakeDataCoupled(c: T.Timing, m: Moment, e: Event)
    requires Coupled(m) && Enabled(c, m, e) && e.TakeData?
    ensures Coupled(Next(c, m, e))
  {
    T.StepKeepsGood(c, m.tunnel, m.clock, TimerEvent(m, e).value);
    DataPhases(m.tunnel, e.index, e.opens, e.carries);
  }

  lemma CookiePhases(s: T.Tunnel)
    requires s.Sized()
    ensures var o := T.CookieArrived(s);
      && o.Sized() && o.state == s.state && o.previous == s.previous && o.hasCookie
      && o.timers[T.COOKIE_RECEIVED] == s.Now()
  {
  }

  lemma ReceivedCookie(hs: Hs, reply: CookieReply)
    ensures var (o, r) := ReceiveCookieReply(hs, reply);
      && o.state == hs.state && o.previous == hs.previous && o.params == hs.params
      && (if r.Ok? then o.cookies.writeCookie.Some? else o == hs)
  {
  }

  lemma TakeCookieCoupled(c: T.Timing, m: Moment, e: Event)
    requires Coupled(m) && Enabled(c, m, e) && e.TakeCookie?
    ensures Coupled(Next(c, m, e))
  {
    ReceivedCookie(m.hs, e.reply);
    if TakesCookie(m, e) {
      T.StepKeepsGood(c, m.tunnel, m.clock, T.TakeCookie);
      CookiePhases(m.tunnel);
    }
  }

  lemma SetKeyCoupled(c: T.Timing, m: Moment, e: Event)
    requires Coupled(m) && Enabled(c, m, e) && e.SetKey?
    ensures Coupled(Next(c, m, e))
  {
    T.StepKeepsGood(c, m.tunnel, m.clock, T.SetKey);
  }

  lemma StepCoupled(c: T.Timing, m: Moment, e: Event)
    requires Coupled(m) && Enabled(c, m, e)
    ensures Coupled(Next(c, m, e))
  {
    match e
    case TimerTick(_, _, _, _) =>
      if m.tunnel.state.Expired? { ExpiredTickCoupled(c, m, e); } else { LiveTickCoupled(c, m, e); }
    case SendPacket(_, _, _, _, _) => SendCoupled(c, m, e);
    case TakeInit(_, _, _, _) => TakeInitCoupled(c, m, e);
    case TakeResponse(_, _) => TakeResponseCoupled(c, m, e);
    case TakeData(_, _, _) => TakeDataCoupled(c, m, e);
    case TakeCookie(_) => TakeCookieCoupled(c, m, e);
    case SetKey(_) => SetKeyCoupled(c, m, e);
  }

  // ---- Runs ----

  ghost predicate Initial(m: Moment) {
    && m.hs == New(m.hs.params, m.hs.nextIndex)
    && (exists n: nat :: m.tunnel == T.Fresh(n))
    && m.clock == 0
  }

  ghost predicate IsRun(c: T.Timing, run: seq<Moment>, events: seq<Event>) {
    && |run| == |events| + 1 && Initial(run[0])
    && forall i :: 0 <= i < |events| ==> Follows(c, run[i], events[i], run[i + 1])
  }

  ghost predicate Follows(c: T.Timing, m: Moment, e: Event, m': Moment) {
    Enabled(c, m, e) && (T.Good(m.tunnel, m.clock) ==> m' == Next(c, m, e))
  }

  lemma InitialCoupled(m: Moment)
    requires Initial(m)
    ensures Coupled(m)
  {
  }

  lemma {:induction false} CoupledAlong(c: T.Timing, run: seq<Moment>, events: seq<Event>, k: nat)
    requires |run| == |events| + 1 && Coupled(run[0]) && k < |run|
    requires forall i :: 0 <= i < |events| ==> Follows(c, run[i], events[i], run[i + 1])
    ensures Coupled(run[k])
  {
    if k > 0 {
      CoupledAlong(c, run, events, k - 1);
      assert Follows(c, run[k - 1], events[k - 1], run[k - 1 + 1]);
      StepCoupled(c, run[k - 1], events[k - 1]);
    }
  }

  /**
   Over every run the timers and the handshake stay together: the phases the
   timers act on are the handshake's states, index for index, and the cookie
   they may drop is the one the handshake holds.
   */
  lemma RunIsCoupled(c: T.Timing, run: seq<Moment>, events: seq<Event>, k: nat)
    requires IsRun(c, run, events) && k < |run|
    ensures Coupled(run[k])
  {
    InitialCoupled(run[0]);
    CoupledAlong(c, run, events, k);
  }

  // ---- The life of a cookie ----

  /** The event sends this message. */
  ghost predicate Sends(c: T.Timing, m: Moment, e: Event, msg: Message) {
    T.Good(m.tunnel, m.clock) && Enabled(c, m, e) && Sent(c, m, e) == Some(msg)
  }

  /** The event clears the timers: it gives the connection up, or starts again after that. */
  ghost predicate Clears(c: T.Timing, m: Moment, e: Event) {
    && T.Good(m.tunnel, m.clock) && Enabled(c, m, e) && (e.TimerTick? || e.SendPacket?)
    && ActionOf(c, m, e) == if m.tunnel.state.Expired? then T.Initiated else T.ConnectionExpired
  }

  /** The clock when an event clears the timers. */
  function ClearedAt(e: Event): nat
    requires e.TimerTick? || e.SendPacket?
  {
    if e.TimerTick? then e.readings.later else e.at
  }

  /** What a step that brings no new cookie does to the one that is held, and to its register. */
  predicate Ages(m: Moment, e: Event, m': Moment, cleared: bool)
    requires cleared ==> e.TimerTick? || e.SendPacket?
  {
    && m.tunnel.Sized() && m'.tunnel.Sized()
    && m'.hs.params.peerStatic == m.hs.params.peerStatic
    && m'.hs.cookies.writeCookie == (if Drops(m, e) then None else m.hs.cookies.writeCookie)
    && m'.tunnel.timers[T.COOKIE_RECEIVED] ==
         if cleared then ClearedAt(e) else m.tunnel.timers[T.COOKIE_RECEIVED]
  }

  lemma TickAges(c: T.Timing, m: Moment, e: Event)
    requires T.Good(m.tunnel, m.clock) && Enabled(c, m, e) && e.TimerTick?
    ensures Ages(m, e, Next(c, m, e), Clears(c, m, e))
  {
    if m.tunnel.state.Expired? {
      ExpiredTick(c, m.tunnel, e.readings, e.picks, e.room, m.clock);
    } else {
      PreparedPhases(c, m.tunnel, e.readings, m.clock);
      LiveTick(c, m.tunnel, e.readings, e.picks, e.room, m.clock);
    }
  }

  lemma SendAges(c: T.Timing, m: Moment, e: Event)
    requires T.Good(m.tunnel, m.clock) && Enabled(c, m, e) && e.SendPacket?
    ensures Ages(m, e, Next(c, m, e), Clears(c, m, e))
  {
    EncapsulatePhases(m.tunnel, e.empty, e.room, e.roll, e.at);
  }

  lemma OtherAges(c: T.Timing, m: Moment, e: Event)
    requires T.Good(m.tunnel, m.clock) && Enabled(c, m, e) && !TakesCookie(m, e)
    requires !e.TimerTick? && !e.SendPacket?
    ensures Ages(m, e, Next(c, m, e), Clears(c, m, e))
  {
    match e
    case TakeInit(p, _, _, at) => AnsweredPhases(m.tunnel, NextIndex(m.hs.nextIndex), at);
    case TakeResponse(p, at) =>
      RespondedPhases(m.tunnel, p.receiver, ReceiveResponse(m.hs, p).1.Ok?, at);
      ReceivedStates(m.hs, p);
    case TakeData(index, opens, carries) => DataPhases(m.tunnel, index, opens, carries);
    case TakeCookie(reply) => ReceivedCookie(m.hs, reply);
    case SetKey(_) =>
  }

  lemma StepAges(c: T.Timing, m: Moment, e: Event)
    requires T.Good(m.tunnel, m.clock) && Enabled(c, m, e) && !TakesCookie(m, e)
    ensures Ages(m, e, Next(c, m, e), Clears(c, m, e))
  {
    match e
    case TimerTick(_, _, _, _) => TickAges(c, m, e);
    case SendPacket(_, _, _, _, _) => SendAges(c, m, e);
    case _ => OtherAges(c, m, e);
  }

  /** A message carries mac2 under the cookie held once an old one is dropped. */
  lemma SentCarries(c: T.Timing, m: Moment, e: Event, msg: Message)
    requires Sends(c, m, e, msg)
    ensures SentWith(msg, Ticked(m, e).cookies, m.hs.params.peerStatic)
  {
  }

  /** When the cookie taken at step `i` counts from, at step `k`: its receipt, or the last clearing since. */
  ghost function Since(c: T.Timing, run: seq<Moment>, events: seq<Event>, i: nat, k: nat): nat
    requires i < k < |run| && |run| == |events| + 1 && run[i].tunnel.Sized()
    decreases k
  {
    if k == i + 1 then run[i].tunnel.Now()
    else if Clears(c, run[k - 1], events[k - 1]) then ClearedAt(events[k - 1])
    else Since(c, run, events, i, k - 1)
  }

  /** Step `k` is a tick of an unexpired tunnel 120 seconds or more after that. */
  ghost predicate Outlives(c: T.Timing, run: seq<Moment>, events: seq<Event>, i: nat, k: nat)
    requires i < k < |events| && |run| == |events| + 1 && run[i].tunnel.Sized()
  {
    events[k].TimerTick? && !run[k].tunnel.state.Expired?
    && events[k].readings.now >= Since(c, run, events, i, k) + T.COOKIE_EXPIRATION
  }

  /** Some step after `i` and before `k` was such a tick. */
  ghost predicate Dropped(c: T.Timing, run: seq<Moment>, events: seq<Event>, i: nat, k: nat)
    requires i < k < |run| && |run| == |events| + 1 && run[i].tunnel.Sized()
  {
    exists n :: i < n < k && Outlives(c, run, events, i, n)
  }

  /** The steps from `i` on, up to `j`: a cookie is taken, and then no other. */
  ghost predicate Holding(c: T.Timing, run: seq<Moment>, events: seq<Event>, i: nat, j: nat) {
    && i < j <= |events| && |run| == |events| + 1
    && (forall k :: i <= k < j ==> T.Good(run[k].tunnel, run[k].clock) && Follows(c, run[k], events[k], run[k + 1]))
    && TakesCookie(run[i], events[i])
    && forall k :: i < k < j ==> !TakesCookie(run[k], events[k])
  }

  lemma CookieTaken(c: T.Timing, m: Moment, e: Event)
    requires T.Good(m.tunnel, m.clock) && Enabled(c, m, e) && TakesCookie(m, e)
    ensures var m' := Next(c, m, e);
      && m'.hs == ReceiveCookieReply(m.hs, e.reply).0 && m'.hs.params == m.hs.params
      && m'.hs.cookies.writeCookie.Some?
      && m'.tunnel.Sized() && m'.tunnel.timers[T.COOKIE_RECEIVED] == m.tunnel.Now()
  {
  }

  lemma {:induction false} CookieAges(c: T.Timing, run: seq<Moment>, events: seq<Event>, i: nat, j: nat, k: nat)
    requires Holding(c, run, events, i, j) && i < k <= j
    ensures run[i].tunnel.Sized() && run[k].tunnel.Sized()
    ensures run[k].hs.params.peerStatic == run[i].hs.params.peerStatic
    ensures run[k].tunnel.timers[T.COOKIE_RECEIVED] == Since(c, run, events, i, k)
    ensures run[k].hs.cookies.writeCookie ==
      if Dropped(c, run, events, i, k) then None
      else ReceiveCookieReply(run[i].hs, events[i].reply).0.cookies.writeCookie
    decreases k
  {
    if k == i + 1 {
      assert Follows(c, run[i], events[i], run[i + 1]);
      CookieTaken(c, run[i], events[i]);
    } else {
      CookieAges(c, run, events, i, j, k - 1);
      assert Follows(c, run[k - 1], events[k - 1], run[k - 1 + 1]);
      StepAges(c, run[k - 1], events[k - 1]);
      DroppedStep(c, run, events, i, k - 1);
    }
  }

  lemma DroppedStep(c: T.Timing, run: seq<Moment>, events: seq<Event>, i: nat, k: nat)
    requires i < k < |events| && |run| == |events| + 1 && run[i].tunnel.Sized()
    ensures Dropped(c, run, events, i, k + 1) <==> Dropped(c, run, events, i, k) || Outlives(c, run, events, i, k)
  {
  }

  /**
   The cookie exchange, over every run of the challenged end. It was challenged
   for its last handshake message by a loaded limiter, took the cookie, and no
   other since. Then what it sends next passes the limiter, however loaded,
   exactly from an address with the padded bytes of the challenged one, within
   the limiter's 128-second epoch, and if no tick of the end's own timers has
   found the cookie 120 seconds old.
   */
  lemma CookieUnlocksLimiter(c: T.Timing, run: seq<Moment>, events: seq<Event>, i: nat, j: nat,
      l: Limiter, m: Message, addr: Address, now: nat, dst: nat, msgType: nat, reply: CookieReply,
      l': Limiter, msg: Message, addr': Address, now': nat, dst': nat, msgType': nat)
    requires IsRun(c, run, events) && i < j < |events|
    requires l.Verify(m, Some(addr), now, dst, msgType, false).1 == Challenge(reply)
    requires l.public == run[i].hs.params.peerStatic && events[i] == TakeCookie(reply)
    requires run[i].hs.cookies.lastMac1 == Some(m.mac1) && run[i].hs.cookies.index == m.sender
    requires forall k :: i < k < j ==> !TakesCookie(run[k], events[k])
    requires Sends(c, run[j], events[j], msg)
    requires SameLimiter(l, l') && l'.count >= l'.limit
    ensures run[i].tunnel.Sized()
    ensures l'.Verify(msg, Some(addr'), now', dst', msgType', false).1 == Pass
      <==> && Padded(addr') == Padded(addr) && l.Epoch(now') == l.Epoch(now)
           && !Dropped(c, run, events, i, j + 1)
  {
    forall k | i <= k <= j ensures T.Good(run[k].tunnel, run[k].clock) { RunIsCoupled(c, run, events, k); }
    ChallengeOpensForLastMessage(run[i].hs, l, m, addr, now, msgType);
    assert Holding(c, run, events, i, j);
    CookieAges(c, run, events, i, j, j);
    DroppedStep(c, run, events, i, j);
    SentCarries(c, run[j], events[j], msg);
    JudgeSent(l, addr, now, l', msg, Ticked(run[j], events[j]).cookies, addr', now', dst', msgType');
  }

  /** The limiter's verdict on a message, with the cookie or without. */
  lemma JudgeSent(l: Limiter, addr: Address, now: nat, l': Limiter, msg: Message, cookies: Cookies,
      addr': Address, now': nat, dst': nat, msgType': nat)
    requires SameLimiter(l, l') && l'.count >= l'.limit && SentWith(msg, cookies, l.public)
    requires cookies.writeCookie.None? || cookies.writeCookie == Some(l.Cookie(addr, now))
    ensures l'.Verify(msg, Some(addr'), now', dst', msgType', false).1 == Pass
      <==> Padded(addr') == Padded(addr) && l.Epoch(now') == l.Epoch(now) && cookies.writeCookie.Some?
  {
    if cookies.writeCookie.None? {
      NoCookieIsChallenged(l', msg, cookies, addr', now', dst', msgType');
    } else {
      HeldCookiePasses(l, addr, now, l', msg, cookies, addr', now', dst', msgType');
    }
  }

  /** Without a clearing in between, the cookie counts from its receipt. */
  lemma {:induction false} SinceReceipt(c: T.Timing, run: seq<Moment>, events: seq<Event>, i: nat, k: nat)
    requires i < k < |run| && |run| == |events| + 1 && run[i].tunnel.Sized()
    requires forall n :: i < n < k ==> !Clears(c, run[n], events[n])
    ensures Since(c, run, events, i, k) == run[i].tunnel.Now()
    decreases k
  {
    if k > i + 1 {
      SinceReceipt(c, run, events, i, k - 1);
    }
  }

  // ---- A cookie dropped within its epoch ----

  const DEFAULTS := T.Timing(
    T.Range(0, 0), T.Range(0, 0), T.Range(0, 0), T.Range(0, 0), T.Range(0, 0), T.Range(0, 0), 0)

  function Roll(index: nat): T.Roll { T.Roll(5, 0, 18, index) }

  function TickAt(now: nat, hs: Hs, d: Draw): Event {
    TimerTick(T.Readings(now, now, now), T.Picks(120, 180, 5, 0, 10, 0, Roll(NextIndex(hs.nextIndex))), true, d)
  }

  function SendAt(now: nat, hs: Hs, d: Draw): Event {
    SendPacket(true, true, Roll(NextIndex(hs.nextIndex)), now, d)
  }

  /** A tunnel without sessions, at this time. */
  predicate Bare(s: T.Tunnel, now: nat) { s.Sized() && T.Empty(s.sessions) && s.Now() == now }

  lemma FirstTick(m: Moment, d: Draw)
    requires Initial(m)
    ensures T.Good(m.tunnel, m.clock) && Enabled(DEFAULTS, m, TickAt(1000, m.hs, d))
    ensures var m' := Next(DEFAULTS, m, TickAt(1000, m.hs, d));
      Bare(m'.tunnel, 1000) && m'.clock == 1000 && m'.tunnel.state == T.Idle && m'.hs == m.hs
      && m'.tunnel.timers[T.ESTABLISHED] == 0
  {
    InitialCoupled(m);
  }

  lemma FirstSend(m: Moment, d: Draw)
    requires Coupled(m) && Bare(m.tunnel, 1000) && m.clock == 1000 && m.tunnel.state == T.Idle
    requires m.tunnel.timers[T.ESTABLISHED] == 0
    ensures Enabled(DEFAULTS, m, SendAt(1000, m.hs, d))
    ensures var e := SendAt(1000, m.hs, d); var m' := Next(DEFAULTS, m, e);
      && Sent(DEFAULTS, m, e) == Some(OfInit(Initiated(m.hs, d).1)) && m'.hs == Initiated(m.hs, d).0
      && Bare(m'.tunnel, 1000) && m'.clock == 1000 && m'.tunnel.state.InitSent?
      && m'.tunnel.timers[T.STARTED] == 1000 && m'.tunnel.deadline == 90_000 && m'.tunnel.timers[T.ESTABLISHED] == 0
  {
  }

  lemma LateTick(m: Moment, d: Draw)
    requires Coupled(m) && Bare(m.tunnel, 1000) && m.clock == 1000 && m.tunnel.state.InitSent?
    requires m.tunnel.timers[T.STARTED] == 1000 && m.tunnel.deadline == 90_000
    requires m.tunnel.timers[T.COOKIE_RECEIVED] == 1000
    ensures var e := TickAt(122_000, m.hs, d);
      && Enabled(DEFAULTS, m, e) && Drops(m, e)
      && var m' := Next(DEFAULTS, m, e);
         && m'.hs.cookies.writeCookie == None && m'.hs.params == m.hs.params
         && Bare(m'.tunnel, 122_000) && m'.clock == 122_000 && m'.tunnel.state.Expired?
  {
    var e := TickAt(122_000, m.hs, d);
    PreparedPhases(DEFAULTS, m.tunnel, e.readings, m.clock);
    LiveTick(DEFAULTS, m.tunnel, e.readings, e.picks, e.room, m.clock);
  }

  lemma LastSend(m: Moment, d: Draw)
    requires Coupled(m) && Bare(m.tunnel, 122_000) && m.clock == 122_000 && m.tunnel.state.Expired?
    ensures var e := SendAt(123_000, m.hs, d);
      Enabled(DEFAULTS, m, e) && Sent(DEFAULTS, m, e) == Some(OfInit(Initiated(m.hs, d).1))
  {
  }

  /** The limiter challenges the message one second after its start. */
  predicate ChallengedWith(l: Limiter, m: Message, addr: Address, reply: CookieReply) {
    l.Verify(m, Some(addr), 1 * SECOND, COOKIE_REPLY_SZ, 3, false).1 == Challenge(reply)
  }

  /** And another message after 123 seconds. */
  predicate StillChallenged(l: Limiter, msg: Message, addr: Address) {
    l.Verify(msg, Some(addr), 123 * SECOND, COOKIE_REPLY_SZ, 3, false).1.Challenge?
  }

  /** The end has just sent its first initiation, one second in. */
  ghost predicate JustSent(m: Moment, msg: Message) {
    && Coupled(m) && Bare(m.tunnel, 1000) && m.clock == 1000 && m.tunnel.state.InitSent?
    && m.tunnel.timers[T.STARTED] == 1000 && m.tunnel.deadline == 90_000
    && m.hs.cookies.lastMac1 == Some(msg.mac1) && m.hs.cookies.index == msg.sender
  }

  lemma Extend(c: T.Timing, run: seq<Moment>, events: seq<Event>, e: Event)
    requires IsRun(c, run, events) && Enabled(c, run[|events|], e)
    requires T.Good(run[|events|].tunnel, run[|events|].clock)
    ensures IsRun(c, run + [Next(c, run[|events|], e)], events + [e])
  {
    var m := run[|events|];
    var run', events' := run + [Next(c, m, e)], events + [e];
    assert Follows(c, m, e, Next(c, m, e));
    forall i | 0 <= i < |events'| ensures Follows(c, run'[i], events'[i], run'[i + 1]) {
      if i < |events| {
        assert run'[i] == run[i] && events'[i] == events[i] && run'[i + 1] == run[i + 1];
      }
    }
  }

  lemma OneStep(run: seq<Moment>, events: seq<Event>, e: Event) returns (run': seq<Moment>, events': seq<Event>)
    requires IsRun(DEFAULTS, run, events) && Enabled(DEFAULTS, run[|events|], e) && Coupled(run[|events|])
    ensures run' == run + [Next(DEFAULTS, run[|events|], e)] && events' == events + [e]
    ensures IsRun(DEFAULTS, run', events') && Coupled(run'[|events'|])
  {
    Extend(DEFAULTS, run, events, e);
    StepCoupled(DEFAULTS, run[|events|], e);
    run', events' := run + [Next(DEFAULTS, run[|events|], e)], events + [e];
  }

  lemma UntilSent(m0: Moment, d: Draw) returns (run: seq<Moment>, events: seq<Event>, m: Message)
    requires Initial(m0)
    ensures |events| == 2 && IsRun(DEFAULTS, run, events) && run[0] == m0 && Sends(DEFAULTS, run[1], events[1], m)
    ensures JustSent(run[2], m) && run[2].hs.params == m0.hs.params && m == OfInit(Initiated(m0.hs, d).1)
  {
    InitialCoupled(m0);
    FirstTick(m0, d);
    assert IsRun(DEFAULTS, [m0], []);
    run, events := OneStep([m0], [], TickAt(1000, m0.hs, d));
    FirstSend(run[1], d);
    run, events := OneStep(run, events, SendAt(1000, run[1].hs, d));
    m := OfInit(Initiated(m0.hs, d).1);
  }

  lemma TakesAndDrops(run: seq<Moment>, events: seq<Event>, m: Message, l: Limiter, addr: Address, d: Draw,
      reply: CookieReply)
      returns (run': seq<Moment>, events': seq<Event>)
    requires |events| == 2 && IsRun(DEFAULTS, run, events) && JustSent(run[2], m)
    requires l.public == run[2].hs.params.peerStatic && reply == l.Reply(m, addr, 1 * SECOND, 3)
    ensures |events'| == 4 && IsRun(DEFAULTS, run', events') && run <= run' && events <= events'
    ensures events'[2] == TakeCookie(reply) && TakesCookie(run'[2], events'[2])
    ensures events'[3].TimerTick? && events'[3].readings.now == 122_000
    ensures GaveUp(run'[4]) && run'[4].hs.params == run[2].hs.params
  {
    var e := TakeCookie(reply);
    ChallengeOpensForLastMessage(run[2].hs, l, m, addr, 1 * SECOND, 3);
    AfterCookie(run[2], e);
    CookieTaken(DEFAULTS, run[2], e);
    run', events' := OneStep(run, events, e);
    LateTick(run'[3], d);
    run', events' := OneStep(run', events', TickAt(122_000, run'[3].hs, d));
  }

  /** The connection is given up and the cookie gone. */
  ghost predicate GaveUp(m: Moment) {
    && Coupled(m) && Bare(m.tunnel, 122_000) && m.clock == 122_000 && m.tunnel.state.Expired?
    && m.hs.cookies.writeCookie == None
  }

  lemma SendsWithout(m: Moment, l: Limiter, addr: Address, d: Draw) returns (e: Event, msg: Message)
    requires GaveUp(m) && l.public == m.hs.params.peerStatic && l.count >= l.limit
    ensures e.SendPacket? && e.at == 123_000 && Sends(DEFAULTS, m, e, msg) && StillChallenged(l, msg, addr)
  {
    LastSend(m, d);
    e := SendAt(123_000, m.hs, d);
    msg := OfInit(Initiated(m.hs, d).1);
    SentCarries(DEFAULTS, m, e, msg);
    NoCookieIsChallenged(l, msg, m.hs.cookies, addr, 123 * SECOND, COOKIE_REPLY_SZ, 3);
  }

  lemma SameEpoch(l: Limiter)
    requires l.startTime == 0
    ensures l.Epoch(123 * SECOND) == l.Epoch(1 * SECOND) == 0
  {
  }

  /**
   Same address, same epoch, and challenged again: the default timings, a
   challenge one second into an epoch, a tick at 122 seconds and the next
   initiation at 123.
   */
  lemma ChallengedAgain(m0: Moment, l: Limiter, addr: Address, d: Draw)
      returns (run: seq<Moment>, events: seq<Event>, m: Message, reply: CookieReply, e: Event, msg: Message)
    requires Initial(m0) && l.public == m0.hs.params.peerStatic && l.startTime == 0 && l.count >= l.limit
    ensures |events| == 4 && IsRun(DEFAULTS, run, events) && run[0] == m0
    ensures Sends(DEFAULTS, run[1], events[1], m) && events[2] == TakeCookie(reply) && TakesCookie(run[2], events[2])
    ensures ChallengedWith(l, m, addr, reply)
    ensures events[3].TimerTick? && events[3].readings.now == 122_000 && e.SendPacket? && e.at == 123_000
    ensures Sends(DEFAULTS, run[4], e, msg) && l.Epoch(123 * SECOND) == l.Epoch(1 * SECOND)
    ensures StillChallenged(l, msg, addr)
  {
    var sent, before, first := UntilSent(m0, d);
    m, reply := first, l.Reply(first, addr, 1 * SECOND, 3);
    FirstIsChallenged(m0.hs, l, addr, d);
    run, events := TakesAndDrops(sent, before, m, l, addr, d, reply);
    e, msg := SendsWithout(run[4], l, addr, d);
    SameEpoch(l);
  }

  lemma FirstIsChallenged(hs: Hs, l: Limiter, addr: Address, d: Draw)
    requires hs.cookies.writeCookie.None? && l.public == hs.params.peerStatic && l.count >= l.limit
    ensures var m := OfInit(Initiated(hs, d).1);
      ChallengedWith(l, m, addr, l.Reply(m, addr, 1 * SECOND, 3))
  {
  }

  lemma AfterCookie(m: Moment, e: Event)
    requires T.Good(m.tunnel, m.clock) && TakesCookie(m, e)
    ensures Enabled(DEFAULTS, m, e)
    ensures var m' := Next(DEFAULTS, m, e);
      && m'.clock == m.clock && m'.tunnel.state == m.tunnel.state && m'.tunnel.sessions == m.tunnel.sessions
      && m'.tunnel.Sized() && m'.tunnel.Now() == m.tunnel.Now() && m'.tunnel.deadline == m.tunnel.deadline
      && m'.tunnel.timers[T.STARTED] == m.tunnel.timers[T.STARTED]
  {
  }
}
