/**
 A tunnel's timers, its ring of sessions and the handshake phase they drive.
 Times are milliseconds since the tunnel started. Every clock reading is an
 input; a run's readings never go back.
 */
module Timers {
  import opened Options

  const N_SESSIONS: nat := 8
  const COOKIE_EXPIRATION: nat := 120_000
  const JITTER_MAX: nat := 334

  // The nine timers.
  const CURRENT: nat := 0
  const ESTABLISHED: nat := 1
  const STARTED: nat := 2
  const RECEIVED: nat := 3
  const SENT: nat := 4
  const DATA_RECEIVED: nat := 5
  const DATA_SENT: nat := 6
  const COOKIE_RECEIVED: nat := 7
  const PERSISTENT: nat := 8
  const TOP: nat := 9

  datatype Range = Range(lo: nat, hi: nat) {
    predicate Valid() { lo <= hi < U32 }

    predicate IsZero() { lo == 0 && hi == 0 }

    function LoOr(default: nat): nat { if IsZero() then default else lo }

    function HiOr(default: nat): nat { if IsZero() then default else hi }

    /** A value the range, or its default, can yield. */
    predicate Yields(v: nat, default: nat) { LoOr(default) <= v <= HiOr(default) }
  }

  /** The configured timings, in seconds; a zero range stands for the WireGuard constant. */
  datatype Timing = Timing(
    rekeyAfter: Range, rekeyTimeout: Range, rejectAfter: Range,
    keepaliveTimeout: Range, attempts: Range, persistent: Range, persistentFixed: nat)
  {
    predicate Valid() {
      && rekeyAfter.Valid() && rekeyTimeout.Valid() && rejectAfter.Valid()
      && keepaliveTimeout.Valid() && attempts.Valid() && persistent.Valid()
    }

    function Reject(): nat { rejectAfter.HiOr(180) * 1000 }

    /** The 32-bit sums of two configured times the code forms, in seconds; an overflow wraps. */
    function Margin(): nat { Add32(keepaliveTimeout.LoOr(10), rekeyTimeout.LoOr(5)) }

    function Patience(rekey: nat): nat { Add32(keepaliveTimeout.HiOr(10), rekey) }

    predicate SumsFit() { keepaliveTimeout.HiOr(10) + rekeyTimeout.HiOr(5) < U32 }
  }

  const U32: nat := 0x1_0000_0000

  function Add32(a: nat, b: nat): nat { (a + b) % U32 }

  function SubOrZero(a: nat, b: nat): nat { if b <= a then a - b else 0 }

  /** Exactly then no sum overflows, whatever is picked. */
  lemma SumsFitExactly(c: Timing)
    requires c.Valid()
    ensures c.SumsFit() <==>
      && c.Margin() == c.keepaliveTimeout.LoOr(10) + c.rekeyTimeout.LoOr(5)
      && forall rekey :: c.rekeyTimeout.Yields(rekey, 5) ==> c.Patience(rekey) == c.keepaliveTimeout.HiOr(10) + rekey
  {
    if !c.SumsFit() {
      assert c.rekeyTimeout.Yields(c.rekeyTimeout.HiOr(5), 5);
    }
  }

  datatype Phase = Idle | InitSent(index: nat, sentAt: nat) | Expired

  /** A session, and the clock when it was established; the code keeps only the slot's timer. */
  datatype Session = Session(index: nat, born: nat)

  datatype Tunnel = Tunnel(
    timers: seq<nat>, sessionTimers: seq<nat>, sessions: seq<Option<Session>>,
    state: Phase, previous: Phase, current: nat,
    isInitiator: bool, wantKeepalive: bool, wantHandshake: bool, hasCookie: bool,
    rekeyTimeout: nat, deadline: nat, persistentNext: nat)
  {
    predicate Sized() { |timers| == TOP && |sessionTimers| == N_SESSIONS && |sessions| == N_SESSIONS }

    function Now(): nat
      requires Sized()
    {
      timers[CURRENT]
    }

    predicate InProgress() { state.InitSent? }
  }

  /** No timer is ahead of the current time, nor that of the clock. */
  ghost predicate Past(timers: seq<nat>, clock: nat) {
    && |timers| == TOP
    && timers[CURRENT] <= clock
    && forall i :: 0 <= i < TOP ==> timers[i] <= timers[CURRENT]
  }

  /** A live session sits in its slot, and was established no earlier than the slot's timer says. */
  ghost predicate Ring(slots: seq<nat>, sessions: seq<Option<Session>>, now: nat, clock: nat) {
    && |slots| == N_SESSIONS && |sessions| == N_SESSIONS
    && (forall i :: 0 <= i < N_SESSIONS ==> slots[i] <= now)
    && (forall i :: 0 <= i < N_SESSIONS && sessions[i].Some? ==>
          sessions[i].value.index % N_SESSIONS == i && slots[i] <= sessions[i].value.born <= clock)
  }

  predicate Empty(sessions: seq<Option<Session>>) {
    forall i :: 0 <= i < |sessions| ==> sessions[i].None?
  }

  /** Everything that holds between calls, `clock` being the latest reading. */
  ghost predicate Good(s: Tunnel, clock: nat) {
    && s.Sized()
    && Past(s.timers, clock)
    && Ring(s.sessionTimers, s.sessions, s.Now(), clock)
    && (s.state.Expired? ==> s.previous.Expired? && Empty(s.sessions))
  }

  /** The ring is untouched. */
  predicate SameRing(s: Tunnel, o: Tunnel) {
    o.sessions == s.sessions && o.sessionTimers == s.sessionTimers
  }

  // ---- Small steps ----

  function Ticked(s: Tunnel, name: nat): Tunnel
    requires s.Sized() && name < TOP
  {
    var t := s.(timers := s.timers[name := s.Now()]);
    if name == RECEIVED then t.(wantKeepalive := true, wantHandshake := false)
    else if name == SENT then t.(wantHandshake := true, wantKeepalive := false)
    else t
  }

  function Established(s: Tunnel, isInitiator: bool, index: nat): Tunnel
    requires s.Sized()
  {
    var t := Ticked(s, ESTABLISHED);
    t.(sessionTimers := t.sessionTimers[index % N_SESSIONS := t.Now()], isInitiator := isInitiator)
  }

  function TimersCleared(s: Tunnel, now: nat): Tunnel {
    s.(timers := seq(TOP, i => now), wantHandshake := false, wantKeepalive := false)
  }

  function ClearedAll(s: Tunnel, now: nat): Tunnel {
    TimersCleared(s.(sessions := seq(N_SESSIONS, i => None)), now)
  }

  function GivenUp(s: Tunnel, now: nat): Tunnel {
    ClearedAll(s.(previous := Expired, state := Expired), now)
  }

  /** A slot is too old at `now`. */
  predicate TooOld(t: nat, now: nat, reject: nat)
    requires t <= now
  {
    now - t > reject
  }

  function SessionsExpired(s: Tunnel, now: nat, reject: nat): Tunnel
    requires s.Sized() && forall i :: 0 <= i < N_SESSIONS ==> s.sessionTimers[i] <= now
  {
    s.(sessions := seq(N_SESSIONS, i requires 0 <= i < N_SESSIONS =>
                         if TooOld(s.sessionTimers[i], now, reject) then None else s.sessions[i]),
       sessionTimers := seq(N_SESSIONS, i requires 0 <= i < N_SESSIONS =>
                              if TooOld(s.sessionTimers[i], now, reject) then now else s.sessionTimers[i]))
  }

  // ---- Sending ----

  /** The draws of one initiation, in seconds and milliseconds, and the index it takes. */
  datatype Roll = Roll(rekeyTimeout: nat, jitter: nat, attempts: nat, index: nat) {
    predicate Allowed(c: Timing) {
      && c.rekeyTimeout.Yields(rekeyTimeout, 5)
      && jitter < JITTER_MAX
      && c.attempts.Yields(attempts, 18)
    }
  }

  datatype Action = Done | Initiated | SentPacket | NoRoom | ConnectionExpired

  datatype Effect = Effect(tunnel: Tunnel, action: Action)

  function Prepared(s: Tunnel, now: nat): Tunnel {
    if s.state.Expired? then TimersCleared(s, now) else s
  }

  /** Fresh timings, a fresh deadline if this starts a handshake, and the new phase. */
  function Rolled(s: Tunnel, roll: Roll, now: nat): Tunnel {
    s.(rekeyTimeout := roll.rekeyTimeout * 1000 + roll.jitter,
       deadline := if s.InProgress() then s.deadline else roll.rekeyTimeout * roll.attempts * 1000,
       previous := s.state,
       state := InitSent(roll.index, now))
  }

  function Dispatched(s: Tunnel, starting: bool): Tunnel
    requires s.Sized()
  {
    Ticked(if starting then Ticked(s, STARTED) else s, SENT)
  }

  /** Formats an initiation; `now` is the clock when it does. */
  function Initiate(s: Tunnel, force: bool, room: bool, roll: Roll, now: nat): Effect
    requires s.Sized()
  {
    if s.InProgress() && !force then Effect(s, Done)
    else if !room then Effect(s, NoRoom)
    else Effect(Dispatched(Rolled(Prepared(s, now), roll, now), !s.InProgress()), Initiated)
  }

  /** Encapsulates a packet, or starts a handshake for it. */
  function Encapsulate(s: Tunnel, empty: bool, room: bool, roll: Roll, now: nat): Effect
    requires s.Sized()
  {
    if s.sessions[s.current % N_SESSIONS].Some? then
      if !room then Effect(s, NoRoom)
      else Effect(if empty then Ticked(s, SENT) else Ticked(Ticked(s, SENT), DATA_SENT), SentPacket)
    else Initiate(s, false, room, roll, now)
  }

  // ---- The tick ----

  /** The picks one tick makes, in seconds and a jitter in milliseconds, and those of the initiation it may send. */
  datatype Picks = Picks(
    rekeyAfter: nat, reject: nat, rekey: nat, jitter: nat, keepaliveTimeout: nat, persistent: nat, roll: Roll)
  {
    predicate Allowed(c: Timing) {
      && c.rekeyAfter.Yields(rekeyAfter, 120)
      && c.rejectAfter.Yields(reject, 180)
      && c.rekeyTimeout.Yields(rekey, 5)
      && jitter < JITTER_MAX
      && c.keepaliveTimeout.Yields(keepaliveTimeout, 10)
      && c.persistent.lo <= persistent <= c.persistent.hi
      && roll.Allowed(c)
    }

    /** When a receiver renews its session, and when unanswered data starts a handshake. */
    function ReceiverRekeyAfter(c: Timing): nat { SubOrZero(reject, c.Margin()) * 1000 }

    function NewHandshakeAfter(c: Timing): nat { c.Patience(rekey) * 1000 + jitter }
  }

  /** Clock readings of one tick, in order: on entry, for the retransmit test, and when something is sent or cleared. */
  datatype Readings = Readings(now: nat, elapsedAt: nat, later: nat) {
    predicate Ordered() { now <= elapsedAt <= later }
  }

  function Elapsed(at: nat, since: nat): nat { if since <= at then at - since else 0 }

  /** What a tick does first, whatever follows. */
  function Entered(s: Tunnel, now: nat, reject: nat): Tunnel
    requires s.Sized() && forall i :: 0 <= i < N_SESSIONS ==> s.sessionTimers[i] <= now
  {
    SessionsExpired(s.(timers := s.timers[CURRENT := now]), now, reject)
  }

  function CookieDropped(s: Tunnel): Tunnel
    requires s.Sized() && s.timers[COOKIE_RECEIVED] <= s.Now()
  {
    if s.hasCookie && s.Now() - s.timers[COOKIE_RECEIVED] >= COOKIE_EXPIRATION then s.(hasCookie := false) else s
  }

  /** Whether an initiator's session is due for renewal. */
  predicate RenewalDue(c: Timing, s: Tunnel, p: Picks)
    requires s.Sized() && s.timers[ESTABLISHED] <= s.Now()
  {
    && s.isInitiator
    && var age := s.Now() - s.timers[ESTABLISHED];
       || (s.timers[ESTABLISHED] < s.timers[DATA_SENT] && age >= p.rekeyAfter * 1000)
       || (s.timers[ESTABLISHED] < s.timers[DATA_RECEIVED] && age >= p.ReceiverRekeyAfter(c))
  }

  predicate Unanswered(c: Timing, s: Tunnel, p: Picks)
    requires s.Sized() && s.timers[RECEIVED] <= s.Now()
  {
    s.timers[DATA_SENT] > s.timers[RECEIVED] && s.Now() - s.timers[RECEIVED] >= p.NewHandshakeAfter(c)
  }

  predicate Owed(s: Tunnel, p: Picks)
    requires s.Sized() && s.timers[SENT] <= s.Now()
  {
    s.timers[DATA_RECEIVED] > s.timers[SENT] && s.Now() - s.timers[SENT] >= p.keepaliveTimeout * 1000
  }

  predicate PersistentDue(c: Timing, s: Tunnel)
    requires s.Sized() && s.timers[PERSISTENT] <= s.Now()
  {
    if !c.persistent.IsZero() then s.Now() - s.timers[PERSISTENT] >= s.persistentNext
    else c.persistentFixed > 0 && s.Now() - s.timers[PERSISTENT] >= c.persistentFixed * 1000
  }

  function PersistentRenewed(c: Timing, s: Tunnel, p: Picks): Tunnel
    requires s.Sized()
  {
    Ticked(if c.persistent.IsZero() then s else s.(persistentNext := p.persistent * 1000), PERSISTENT)
  }

  /** The keepalive part of a tick. */
  function Keepalive(c: Timing, s: Tunnel, p: Picks, room: bool, now: nat): Effect
    requires s.Sized() && s.timers[SENT] <= s.Now() && s.timers[PERSISTENT] <= s.Now()
  {
    var a := if Owed(s, p) then s.(wantKeepalive := false) else s;
    var due := PersistentDue(c, a);
    var b := if due then PersistentRenewed(c, a, p) else a;
    if due || (Owed(s, p) && s.wantKeepalive) then Encapsulate(b, true, room, p.roll, now) else Effect(b, Done)
  }

  /** A tick outside a handshake of our own. */
  function Quiet(c: Timing, s: Tunnel, p: Picks, room: bool, now: nat): Effect
    requires s.Sized() && forall i :: 0 <= i < TOP ==> s.timers[i] <= s.Now()
  {
    var unanswered := Unanswered(c, s, p) && s.wantHandshake;
    var a := if Unanswered(c, s, p) then s.(wantHandshake := false) else s;
    if RenewalDue(c, s, p) || unanswered then Initiate(a, true, room, p.roll, now)
    else Keepalive(c, a, p, room, now)
  }

  /** A tick once the time is in and the old sessions are out. */
  function Proceed(c: Timing, s: Tunnel, r: Readings, p: Picks, room: bool): Effect
    requires s.Sized() && s.Now() == r.now && forall i :: 0 <= i < TOP ==> s.timers[i] <= s.Now()
  {
    if r.now - s.timers[ESTABLISHED] >= c.Reject() * 3 then Effect(GivenUp(s, r.later), ConnectionExpired)
    else if s.state.InitSent? then
      if r.now - s.timers[STARTED] >= s.deadline then Effect(GivenUp(s, r.later), ConnectionExpired)
      else if Elapsed(r.elapsedAt, s.state.sentAt) >= s.rekeyTimeout then Initiate(s, true, room, p.roll, r.later)
      else Effect(s, Done)
    else Quiet(c, s, p, room, r.later)
  }

  /** One call of `update_timers`. Every subtraction in it is of an earlier time. */
  function Tick(c: Timing, s: Tunnel, r: Readings, p: Picks, room: bool): Effect
    requires s.Sized() && r.Ordered()
    requires forall i :: 0 <= i < TOP ==> s.timers[i] <= r.now
    requires forall i :: 0 <= i < N_SESSIONS ==> s.sessionTimers[i] <= r.now
  {
    var e := Entered(s, r.now, c.Reject());
    if e.state.Expired? then Effect(e, ConnectionExpired)
    else Proceed(c, CookieDropped(e), r, p, room)
  }

  // ---- Receiving ----

  function Switched(s: Tunnel, index: nat): Tunnel
    requires s.Sized()
  {
    if s.current == index then s
    else if s.sessions[s.current % N_SESSIONS].None?
            || s.sessionTimers[index % N_SESSIONS] >= s.sessionTimers[s.current % N_SESSIONS]
    then s.(current := index)
    else s
  }

  /** A valid initiation was answered under `index`, at this time. */
  function Answered(s: Tunnel, index: nat, at: nat): Tunnel
    requires s.Sized()
  {
    var a := s.(previous := s.state, state := Idle,
                sessions := s.sessions[index % N_SESSIONS := Some(Session(index, at))]);
    Established(Ticked(Ticked(a, RECEIVED), SENT), false, index)
  }

  /** The initiator's new session, stored, stamped and made current. */
  function Completed(s: Tunnel, index: nat, at: nat): Tunnel
    requires s.Sized()
  {
    var a := s.(sessions := s.sessions[index % N_SESSIONS := Some(Session(index, at))]);
    Switched(Established(Ticked(a, RECEIVED), true, index % N_SESSIONS), index)
  }

  /** A response for `index` arrived; `authentic` if it opens under that handshake's keys. */
  function Responded(s: Tunnel, index: nat, authentic: bool, at: nat): Tunnel
    requires s.Sized()
  {
    var ours := s.state.InitSent? && s.state.index == index;
    var older := !ours && s.previous.InitSent? && s.previous.index == index;
    if !authentic || !(ours || older) then s else
    Completed(if ours then s.(state := Idle) else s.(previous := Idle), index, at)
  }

  /** A data packet for `index`; `opens` if its session takes it, `carries` if it holds more than padding. */
  function DataArrived(s: Tunnel, index: nat, opens: bool, carries: bool): Tunnel
    requires s.Sized()
  {
    if s.sessions[index % N_SESSIONS].None? || !opens then s else
    var a := Ticked(Switched(s, index), RECEIVED);
    if carries then Ticked(a, DATA_RECEIVED) else a
  }

  function CookieArrived(s: Tunnel): Tunnel
    requires s.Sized()
  {
    Ticked(Ticked(s.(hasCookie := true), RECEIVED), COOKIE_RECEIVED)
  }

  function KeyChanged(s: Tunnel): Tunnel {
    s.(sessions := seq(N_SESSIONS, i => None))
  }

  // ---- Runs ----

  datatype Event =
    | TimerTick(readings: Readings, picks: Picks, room: bool)
    | SendPacket(empty: bool, room: bool, roll: Roll, at: nat)
    | AnswerInit(index: nat, at: nat)
    | TakeResponse(index: nat, authentic: bool, at: nat)
    | TakeData(index: nat, opens: bool, carries: bool)
    | TakeCookie
    | SetKey

  /** The latest clock reading of an event. */
  function ClockAfter(clock: nat, e: Event): nat {
    match e
    case TimerTick(r, _, _) => r.later
    case SendPacket(_, _, _, at) => at
    case AnswerInit(_, at) => at
    case TakeResponse(_, _, at) => at
    case _ => clock
  }

  /** The clock did not go back, and the draws are the configured ones. */
  predicate Timely(c: Timing, clock: nat, e: Event) {
    match e
    case TimerTick(r, p, _) => clock <= r.now && r.Ordered() && p.Allowed(c)
    case SendPacket(_, _, roll, at) => clock <= at && roll.Allowed(c)
    case AnswerInit(_, at) => clock <= at
    case TakeResponse(_, _, at) => clock <= at
    case _ => true
  }

  function Next(c: Timing, s: Tunnel, clock: nat, e: Event): Tunnel
    requires Good(s, clock) && Timely(c, clock, e)
  {
    match e
    case TimerTick(r, p, room) => Tick(c, s, r, p, room).tunnel
    case SendPacket(empty, room, roll, at) => Encapsulate(s, empty, room, roll, at).tunnel
    case AnswerInit(index, at) => Answered(s, index, at)
    case TakeResponse(index, authentic, at) => Responded(s, index, authentic, at)
    case TakeData(index, opens, carries) => DataArrived(s, index, opens, carries)
    case TakeCookie => CookieArrived(s)
    case SetKey => KeyChanged(s)
  }

  // ---- What every step keeps ----

  lemma TickedKeeps(s: Tunnel, clock: nat, name: nat)
    requires Good(s, clock) && name < TOP
    ensures Good(Ticked(s, name), clock) && Ticked(s, name).Now() == s.Now()
  {
  }

  /** Only the clock moved on. */
  lemma LaterKeeps(s: Tunnel, clock: nat, clock': nat)
    requires Good(s, clock) && clock <= clock'
    ensures Good(s, clock')
  {
  }

  lemma ClearedKeeps(s: Tunnel, clock: nat, now: nat)
    requires Good(s, clock) && clock <= now
    ensures Good(TimersCleared(s, now), now) && TimersCleared(s, now).Now() == now
  {
  }

  lemma GivenUpKeeps(s: Tunnel, clock: nat, now: nat)
    requires Good(s, clock) && clock <= now
    ensures Good(GivenUp(s, now), now)
  {
  }

  /** After entry every live session is young enough, and the rest is as it was. */
  lemma EnteredKeeps(s: Tunnel, clock: nat, now: nat, reject: nat)
    requires Good(s, clock) && clock <= now
    ensures var e := Entered(s, now, reject);
      && Good(e, now) && e.Now() == now && Young(e.sessions, now, reject)
      && (forall i :: 0 <= i < N_SESSIONS && e.sessions[i].Some? ==> e.sessions[i] == s.sessions[i])
  {
  }

  lemma RolledKeeps(s: Tunnel, clock: nat, roll: Roll, now: nat)
    requires Good(s, clock)
    ensures Good(Rolled(s, roll, now), clock) && SameRing(s, Rolled(s, roll, now))
  {
  }

  lemma DispatchedKeeps(s: Tunnel, clock: nat, starting: bool)
    requires Good(s, clock)
    ensures Good(Dispatched(s, starting), clock) && SameRing(s, Dispatched(s, starting))
  {
  }

  lemma InitiateKeeps(s: Tunnel, clock: nat, force: bool, room: bool, roll: Roll, now: nat)
    requires Good(s, clock) && clock <= now
    ensures var o := Initiate(s, force, room, roll, now).tunnel;
      Good(o, now) && SameRing(s, o)
  {
    LaterKeeps(s, clock, now);
    ClearedKeeps(s, clock, now);
    RolledKeeps(Prepared(s, now), now, roll, now);
    DispatchedKeeps(Rolled(Prepared(s, now), roll, now), now, !s.InProgress());
  }

  lemma EncapsulateKeeps(s: Tunnel, clock: nat, empty: bool, room: bool, roll: Roll, now: nat)
    requires Good(s, clock) && clock <= now
    ensures var o := Encapsulate(s, empty, room, roll, now).tunnel;
      Good(o, now) && SameRing(s, o)
  {
    LaterKeeps(s, clock, now);
    InitiateKeeps(s, clock, false, room, roll, now);
    TickedKeeps(s, now, SENT);
    TickedKeeps(Ticked(s, SENT), now, DATA_SENT);
  }

  lemma KeepaliveKeeps(c: Timing, s: Tunnel, clock: nat, p: Picks, room: bool, now: nat)
    requires Good(s, clock) && clock <= now
    ensures var o := Keepalive(c, s, p, room, now).tunnel;
      Good(o, now) && SameRing(s, o)
  {
    var a := if Owed(s, p) then s.(wantKeepalive := false) else s;
    assert Good(a, clock);
    var b := if PersistentDue(c, a) then PersistentRenewed(c, a, p) else a;
    PersistentKeeps(c, a, clock, p);
    LaterKeeps(b, clock, now);
    EncapsulateKeeps(b, clock, true, room, p.roll, now);
  }

  lemma PersistentKeeps(c: Timing, s: Tunnel, clock: nat, p: Picks)
    requires Good(s, clock)
    ensures Good(PersistentRenewed(c, s, p), clock) && SameRing(s, PersistentRenewed(c, s, p))
  {
  }

  lemma QuietKeeps(c: Timing, s: Tunnel, clock: nat, p: Picks, room: bool, now: nat)
    requires Good(s, clock) && clock <= now
    ensures var o := Quiet(c, s, p, room, now).tunnel;
      Good(o, now) && SameRing(s, o)
  {
    var a := if Unanswered(c, s, p) then s.(wantHandshake := false) else s;
    assert Good(a, clock);
    InitiateKeeps(a, clock, true, room, p.roll, now);
    KeepaliveKeeps(c, a, clock, p, room, now);
  }

  lemma ProceedKeeps(c: Timing, s: Tunnel, r: Readings, p: Picks, room: bool)
    requires Good(s, r.now) && s.Now() == r.now && r.Ordered()
    ensures var o := Proceed(c, s, r, p, room).tunnel;
      Good(o, r.later) && (Empty(o.sessions) || SameRing(s, o))
  {
    LaterKeeps(s, r.now, r.later);
    GivenUpKeeps(s, r.now, r.later);
    InitiateKeeps(s, r.now, true, room, p.roll, r.later);
    QuietKeeps(c, s, r.now, p, room, r.later);
  }

  /** Every live session is at most `age` old at `now`. */
  predicate Young(sessions: seq<Option<Session>>, now: nat, age: nat) {
    forall i :: 0 <= i < |sessions| && sessions[i].Some? ==> now - sessions[i].value.born <= age
  }

  /** A tick keeps everything, and leaves no live session older than the rejection time. */
  lemma TickKeeps(c: Timing, s: Tunnel, clock: nat, r: Readings, p: Picks, room: bool)
    requires Good(s, clock) && clock <= r.now && r.Ordered()
    ensures var o := Tick(c, s, r, p, room).tunnel;
      Good(o, r.later) && Young(o.sessions, r.now, c.Reject())
  {
    var e := Entered(s, r.now, c.Reject());
    EnteredKeeps(s, clock, r.now, c.Reject());
    LaterKeeps(e, r.now, r.later);
    var d := CookieDropped(e);
    assert Good(d, r.now) && d.sessions == e.sessions;
    ProceedKeeps(c, d, r, p, room);
  }

  /** A session put in its slot, then stamped there. */
  lemma EstablishedKeeps(s: Tunnel, clock: nat, index: nat, slot: nat, isInitiator: bool)
    requires s.Sized() && Past(s.timers, clock) && !s.state.Expired?
    requires slot % N_SESSIONS == index % N_SESSIONS
    requires Ring(s.sessionTimers, s.sessions[index % N_SESSIONS := None], s.Now(), clock)
    requires s.sessions[index % N_SESSIONS] == Some(Session(index, clock))
    ensures Good(Established(s, isInitiator, slot), clock)
  {
  }

  lemma AnsweredKeeps(s: Tunnel, clock: nat, index: nat, at: nat)
    requires Good(s, clock) && clock <= at
    ensures Good(Answered(s, index, at), at)
  {
  }

  lemma SwitchedKeeps(s: Tunnel, clock: nat, index: nat)
    requires Good(s, clock)
    ensures Good(Switched(s, index), clock)
  {
  }

  lemma RespondedKeeps(s: Tunnel, clock: nat, index: nat, authentic: bool, at: nat)
    requires Good(s, clock) && clock <= at
    ensures Good(Responded(s, index, authentic, at), at)
  {
    LaterKeeps(s, clock, at);
    var ours := s.state.InitSent? && s.state.index == index;
    var older := !ours && s.previous.InitSent? && s.previous.index == index;
    if authentic && (ours || older) {
      CompletedKeeps(if ours then s.(state := Idle) else s.(previous := Idle), index, at);
    }
  }

  lemma CompletedKeeps(s: Tunnel, index: nat, at: nat)
    requires Good(s, at) && !s.state.Expired?
    ensures Good(Completed(s, index, at), at)
  {
    var a := s.(sessions := s.sessions[index % N_SESSIONS := Some(Session(index, at))]);
    EstablishedKeeps(Ticked(a, RECEIVED), at, index, index % N_SESSIONS, true);
    SwitchedKeeps(Established(Ticked(a, RECEIVED), true, index % N_SESSIONS), at, index);
  }

  lemma DataKeeps(s: Tunnel, clock: nat, index: nat, opens: bool, carries: bool)
    requires Good(s, clock)
    ensures Good(DataArrived(s, index, opens, carries), clock)
  {
    SwitchedKeeps(s, clock, index);
    TickedKeeps(Switched(s, index), clock, RECEIVED);
    TickedKeeps(Ticked(Switched(s, index), RECEIVED), clock, DATA_RECEIVED);
  }

  lemma CookieKeeps(s: Tunnel, clock: nat)
    requires Good(s, clock)
    ensures Good(CookieArrived(s), clock)
  {
  }

  lemma StepKeepsGood(c: Timing, s: Tunnel, clock: nat, e: Event)
    requires Good(s, clock) && Timely(c, clock, e)
    ensures Good(Next(c, s, clock, e), ClockAfter(clock, e))
  {
    match e
    case TimerTick(r, p, room) => TickKeeps(c, s, clock, r, p, room);
    case SendPacket(empty, room, roll, at) => EncapsulateKeeps(s, clock, empty, room, roll, at);
    case AnswerInit(index, at) => AnsweredKeeps(s, clock, index, at);
    case TakeResponse(index, authentic, at) => RespondedKeeps(s, clock, index, authentic, at);
    case TakeData(index, opens, carries) => DataKeeps(s, clock, index, opens, carries);
    case TakeCookie => CookieKeeps(s, clock);
    case SetKey =>
  }

  /** A new tunnel. */
  function Fresh(persistentNext: nat): Tunnel {
    Tunnel(seq(TOP, i => 0), seq(N_SESSIONS, i => 0), seq(N_SESSIONS, i => None),
           Idle, Idle, 0, false, false, false, false, 5_000, 90_000, persistentNext)
  }

  /** A tunnel and the clock, along a run. */
  datatype Moment = Moment(tunnel: Tunnel, clock: nat)

  ghost predicate IsRun(c: Timing, run: seq<Moment>, events: seq<Event>) {
    && |run| == |events| + 1
    && (exists n: nat :: run[0] == Moment(Fresh(n), 0))
    && forall i :: 0 <= i < |events| ==>
      && Timely(c, run[i].clock, events[i])
      && (Good(run[i].tunnel, run[i].clock) ==>
            run[i + 1] == Moment(Next(c, run[i].tunnel, run[i].clock, events[i]), ClockAfter(run[i].clock, events[i])))
  }

  /** Every reachable tunnel is sound: no timer is in the future, every live session is in its slot and stamped. */
  lemma {:induction false} RunIsGood(c: Timing, run: seq<Moment>, events: seq<Event>, i: nat)
    requires IsRun(c, run, events) && i < |run|
    ensures Good(run[i].tunnel, run[i].clock)
  {
    if i > 0 {
      RunIsGood(c, run, events, i - 1);
      StepKeepsGood(c, run[i - 1].tunnel, run[i - 1].clock, events[i - 1]);
    }
  }

  /** After each tick of a run, no live session is older than the upper rejection time. */
  lemma RunStaysYoung(c: Timing, run: seq<Moment>, events: seq<Event>, i: nat)
    requires IsRun(c, run, events) && i < |events| && events[i].TimerTick?
    ensures Young(run[i + 1].tunnel.sessions, events[i].readings.now, c.Reject())
  {
    RunIsGood(c, run, events, i);
    var e := events[i];
    TickKeeps(c, run[i].tunnel, run[i].clock, e.readings, e.picks, e.room);
  }

  // ---- What a slot's timer says ----

  /** The register of the current time keeps its value or takes the reading. */
  predicate Forward(s: Tunnel, o: Tunnel, now: nat) {
    s.Sized() && o.Sized() && (o.Now() == s.Now() || o.Now() == now)
  }

  lemma GivenUpForward(s: Tunnel, now: nat)
    requires s.Sized()
    ensures Forward(s, GivenUp(s, now), now)
  {
  }

  lemma InitiateForward(s: Tunnel, force: bool, room: bool, roll: Roll, now: nat)
    requires s.Sized()
    ensures Forward(s, Initiate(s, force, room, roll, now).tunnel, now)
  {
  }

  lemma EncapsulateForward(s: Tunnel, empty: bool, room: bool, roll: Roll, now: nat)
    requires s.Sized()
    ensures Forward(s, Encapsulate(s, empty, room, roll, now).tunnel, now)
  {
    InitiateForward(s, false, room, roll, now);
  }

  lemma KeepaliveForward(c: Timing, s: Tunnel, p: Picks, room: bool, now: nat)
    requires s.Sized() && s.timers[SENT] <= s.Now() && s.timers[PERSISTENT] <= s.Now()
    ensures Forward(s, Keepalive(c, s, p, room, now).tunnel, now)
  {
    var a := if Owed(s, p) then s.(wantKeepalive := false) else s;
    EncapsulateForward(if PersistentDue(c, a) then PersistentRenewed(c, a, p) else a, true, room, p.roll, now);
  }

  lemma QuietForward(c: Timing, s: Tunnel, p: Picks, room: bool, now: nat)
    requires s.Sized() && forall i :: 0 <= i < TOP ==> s.timers[i] <= s.Now()
    ensures Forward(s, Quiet(c, s, p, room, now).tunnel, now)
  {
    var a := if Unanswered(c, s, p) then s.(wantHandshake := false) else s;
    InitiateForward(a, true, room, p.roll, now);
    KeepaliveForward(c, a, p, room, now);
  }

  lemma ProceedForward(c: Timing, s: Tunnel, r: Readings, p: Picks, room: bool)
    requires s.Sized() && s.Now() == r.now && forall i :: 0 <= i < TOP ==> s.timers[i] <= s.Now()
    ensures Forward(s, Proceed(c, s, r, p, room).tunnel, r.later)
  {
    GivenUpForward(s, r.later);
    if s.state.InitSent? {
      InitiateForward(s, true, room, p.roll, r.later);
    } else {
      QuietForward(c, s, p, room, r.later);
    }
  }

  lemma TickForward(c: Timing, s: Tunnel, clock: nat, r: Readings, p: Picks, room: bool)
    requires Good(s, clock) && clock <= r.now && r.Ordered()
    ensures var o := Tick(c, s, r, p, room).tunnel; o.Sized() && clock <= o.Now()
  {
    var e := Entered(s, r.now, c.Reject());
    EnteredKeeps(s, clock, r.now, c.Reject());
    var d := CookieDropped(e);
    assert d.timers == e.timers;
    ProceedForward(c, d, r, p, room);
  }

  lemma RespondedForward(s: Tunnel, index: nat, authentic: bool, at: nat)
    requires s.Sized()
    ensures var o := Responded(s, index, authentic, at); o.Sized() && o.Now() == s.Now()
  {
  }

  /** An event moves the register to a reading or leaves it; establishing a session leaves it. */
  lemma RegisterStep(c: Timing, s: Tunnel, clock: nat, e: Event)
    requires Good(s, clock) && Timely(c, clock, e)
    ensures var o := Next(c, s, clock, e);
      o.Sized() && (o.Now() == s.Now() || (clock <= o.Now() && !e.AnswerInit? && !e.TakeResponse?))
  {
    match e
    case TimerTick(r, p, room) => TickForward(c, s, clock, r, p, room);
    case SendPacket(empty, room, roll, at) => EncapsulateForward(s, empty, room, roll, at);
    case TakeResponse(index, authentic, at) => RespondedForward(s, index, authentic, at);
    case _ =>
  }

  /** A live session of `o` was there in `s`, in its slot with the same timer, or the slot has just been stamped. */
  predicate Stamped(s: Tunnel, o: Tunnel, k: nat) {
    && s.Sized() && o.Sized() && k < N_SESSIONS
    && (o.sessions[k].Some? ==> SameSlot(s, o, k) || o.sessionTimers[k] == s.Now())
  }

  predicate SameSlot(s: Tunnel, o: Tunnel, k: nat)
    requires s.Sized() && o.Sized() && k < N_SESSIONS
  {
    o.sessions[k] == s.sessions[k] && o.sessionTimers[k] == s.sessionTimers[k]
  }

  lemma AnsweredSlot(s: Tunnel, index: nat, at: nat, k: nat)
    requires s.Sized() && k < N_SESSIONS
    ensures Stamped(s, Answered(s, index, at), k)
  {
  }

  lemma CompletedSlot(s: Tunnel, index: nat, at: nat, k: nat)
    requires s.Sized() && k < N_SESSIONS
    ensures Stamped(s, Completed(s, index, at), k)
  {
  }

  lemma RespondedSlot(s: Tunnel, index: nat, authentic: bool, at: nat, k: nat)
    requires s.Sized() && k < N_SESSIONS
    ensures Stamped(s, Responded(s, index, authentic, at), k)
  {
    CompletedSlot(s.(state := Idle), index, at, k);
    CompletedSlot(s.(previous := Idle), index, at, k);
  }

  lemma SlotStep(c: Timing, s: Tunnel, clock: nat, e: Event, k: nat)
    requires Good(s, clock) && Timely(c, clock, e) && k < N_SESSIONS
    ensures var o := Next(c, s, clock, e);
      && Stamped(s, o, k)
      && (!e.AnswerInit? && !e.TakeResponse? && o.sessions[k].Some? ==> SameSlot(s, o, k))
  {
    match e
    case TimerTick(r, p, room) => TickSlots(c, s, clock, r, p, room, k);
    case SendPacket(empty, room, roll, at) => EncapsulateKeeps(s, clock, empty, room, roll, at);
    case AnswerInit(index, at) => AnsweredSlot(s, index, at, k);
    case TakeResponse(index, authentic, at) => RespondedSlot(s, index, authentic, at, k);
    case _ =>
  }

  lemma TickSlots(c: Timing, s: Tunnel, clock: nat, r: Readings, p: Picks, room: bool, k: nat)
    requires Good(s, clock) && clock <= r.now && r.Ordered() && k < N_SESSIONS
    ensures var o := Tick(c, s, r, p, room).tunnel;
      o.Sized() && (o.sessions[k].Some? ==> SameSlot(s, o, k))
  {
    TickKeeps(c, s, clock, r, p, room);
    var e := Entered(s, r.now, c.Reject());
    EnteredKeeps(s, clock, r.now, c.Reject());
    var d := CookieDropped(e);
    assert Good(d, r.now) && SameRing(e, d);
    ProceedKeeps(c, d, r, p, room);
  }

  /** Neither the slot's timer nor the birth of a session has `now` between them. */
  predicate Apart(slot: nat, born: nat, now: nat) { now <= slot || born <= now }

  /**
   The stamp of a live session is the last value the register of the current
   time had when the session was established: over a whole run, no value of
   the register lies between the stamp and the session's true birth.
   */
  lemma {:induction false} StampIsLatest(c: Timing, run: seq<Moment>, events: seq<Event>, i: nat, j: nat, k: nat)
    requires IsRun(c, run, events) && j <= i < |run| && k < N_SESSIONS
    ensures run[i].tunnel.Sized() && run[j].tunnel.Sized() && run[j].tunnel.Now() <= run[i].tunnel.Now()
    ensures run[i].tunnel.sessions[k].Some? ==>
      Apart(run[i].tunnel.sessionTimers[k], run[i].tunnel.sessions[k].value.born, run[j].tunnel.Now())
    decreases i
  {
    RunIsGood(c, run, events, i);
    if i > 0 {
      var s, clock, e := run[i - 1].tunnel, run[i - 1].clock, events[i - 1];
      RunIsGood(c, run, events, i - 1);
      RegisterStep(c, s, clock, e);
      SlotStep(c, s, clock, e, k);
      StampIsLatest(c, run, events, i - 1, if j < i then j else i - 1, k);
    }
  }

  // ---- The retry bound ----

  /** The least retransmit timeout, in milliseconds. */
  function Lo(c: Timing): nat { c.rekeyTimeout.LoOr(5) * 1000 }

  /** A handshake begun at `t0` with deadline `d` that has sent `k` initiations, the last no earlier than this. */
  predicate Retrying(c: Timing, s: Tunnel, t0: nat, d: nat, k: nat) {
    && s.Sized() && k > 0
    && s.state.InitSent? && s.state.sentAt >= t0 + (k - 1) * Lo(c)
    && s.timers[STARTED] == t0 && s.deadline == d && s.rekeyTimeout >= Lo(c)
  }

  /** Starting a handshake sends the first initiation. */
  lemma StartsRetrying(c: Timing, s: Tunnel, clock: nat, force: bool, roll: Roll, now: nat)
    requires Good(s, clock) && clock <= now && !s.InProgress() && roll.Allowed(c)
    ensures var o := Initiate(s, force, true, roll, now).tunnel;
      Retrying(c, o, o.timers[STARTED], roll.rekeyTimeout * roll.attempts * 1000, 1)
  {
  }

  /** One tick, read from the clock once. */
  predicate Single(r: Readings) { r.now == r.elapsedAt == r.later }

  lemma Product(k: nat, lo: nat)
    requires k > 0
    ensures (k - 1) * lo + lo == k * lo
  {
  }

  /** Another initiation goes out only while time is left, and then counts. */
  lemma RetryStep(c: Timing, s: Tunnel, clock: nat, r: Readings, p: Picks, room: bool, t0: nat, d: nat, k: nat)
    requires Good(s, clock) && clock <= r.now && Single(r) && p.Allowed(c) && Retrying(c, s, t0, d, k)
    ensures r.now - t0 >= d ==> Tick(c, s, r, p, room).action == ConnectionExpired
    ensures var o := Tick(c, s, r, p, room);
      match o.action
      case Initiated => k * Lo(c) < d && Retrying(c, o.tunnel, t0, d, k + 1)
      case ConnectionExpired => o.tunnel.state.Expired?
      case _ => Retrying(c, o.tunnel, t0, d, k)
  {
    Product(k, Lo(c));
    var e := Entered(s, r.now, c.Reject());
    var f := CookieDropped(e);
    assert Retrying(c, f, t0, d, k);
  }

  /** Ticks and nothing else, each read from the clock once. */
  ghost predicate OnlyTicks(c: Timing, clock: nat, ticks: seq<Event>)
    decreases |ticks|
  {
    ticks == [] ||
    (&& ticks[0].TimerTick? && Single(ticks[0].readings) && Timely(c, clock, ticks[0])
     && OnlyTicks(c, ClockAfter(clock, ticks[0]), ticks[1..]))
  }

  /** How many initiations a run of ticks sends. */
  ghost function Initiations(c: Timing, s: Tunnel, clock: nat, ticks: seq<Event>): nat
    requires Good(s, clock) && OnlyTicks(c, clock, ticks)
    decreases |ticks|
  {
    if ticks == [] then 0 else
    var e := ticks[0];
    var o := Tick(c, s, e.readings, e.picks, e.room);
    StepKeepsGood(c, s, clock, e);
    (if o.action == Initiated then 1 else 0) + Initiations(c, o.tunnel, ClockAfter(clock, e), ticks[1..])
  }

  /** An expired tunnel sends nothing more by itself. */
  lemma {:induction false} ExpiredIsSilent(c: Timing, s: Tunnel, clock: nat, ticks: seq<Event>)
    requires Good(s, clock) && OnlyTicks(c, clock, ticks) && s.state.Expired?
    ensures Initiations(c, s, clock, ticks) == 0
    decreases |ticks|
  {
    if ticks != [] {
      var e := ticks[0];
      StepKeepsGood(c, s, clock, e);
      ExpiredIsSilent(c, Tick(c, s, e.readings, e.picks, e.room).tunnel, ClockAfter(clock, e), ticks[1..]);
    }
  }

  /** `n` more initiations after `k` fit before the deadline. */
  predicate Fits(k: nat, n: nat, lo: nat, d: nat) {
    n > 0 ==> (k + n - 1) * lo < d
  }

  lemma FitsOneMore(k: nat, n: nat, lo: nat, d: nat)
    requires k * lo < d && Fits(k + 1, n, lo, d)
    ensures Fits(k, 1 + n, lo, d)
  {
  }

  /** The first tick, and what is left after it. */
  lemma FirstTick(c: Timing, s: Tunnel, clock: nat, ticks: seq<Event>)
    requires Good(s, clock) && OnlyTicks(c, clock, ticks) && ticks != []
    ensures var e := ticks[0]; var o := Tick(c, s, e.readings, e.picks, e.room); var clock' := ClockAfter(clock, e);
      && Good(o.tunnel, clock') && OnlyTicks(c, clock', ticks[1..])
      && Initiations(c, s, clock, ticks) ==
           (if o.action == Initiated then 1 else 0) + Initiations(c, o.tunnel, clock', ticks[1..])
  {
    StepKeepsGood(c, s, clock, ticks[0]);
  }

  lemma {:induction false} RetriesAreBounded(
      c: Timing, s: Tunnel, clock: nat, ticks: seq<Event>, t0: nat, d: nat, k: nat)
    requires Good(s, clock) && OnlyTicks(c, clock, ticks) && Retrying(c, s, t0, d, k)
    ensures Fits(k, Initiations(c, s, clock, ticks), Lo(c), d)
    decreases |ticks|, 0
  {
    if ticks != [] {
      var e := ticks[0];
      FirstTick(c, s, clock, ticks);
      RetryStep(c, s, clock, e.readings, e.picks, e.room, t0, d, k);
      AfterFirst(c, Tick(c, s, e.readings, e.picks, e.room), ClockAfter(clock, e), ticks[1..], t0, d, k);
    }
  }

  lemma {:induction false} AfterFirst(c: Timing, o: Effect, clock: nat, ticks: seq<Event>, t0: nat, d: nat, k: nat)
    requires Good(o.tunnel, clock) && OnlyTicks(c, clock, ticks)
    requires match o.action
      case Initiated => k * Lo(c) < d && Retrying(c, o.tunnel, t0, d, k + 1)
      case ConnectionExpired => o.tunnel.state.Expired?
      case _ => Retrying(c, o.tunnel, t0, d, k)
    ensures Fits(k, (if o.action == Initiated then 1 else 0) + Initiations(c, o.tunnel, clock, ticks), Lo(c), d)
    decreases |ticks|, 1
  {
    match o.action
    case Initiated =>
      RetriesAreBounded(c, o.tunnel, clock, ticks, t0, d, k + 1);
      FitsOneMore(k, Initiations(c, o.tunnel, clock, ticks), Lo(c), d);
    case ConnectionExpired => ExpiredIsSilent(c, o.tunnel, clock, ticks);
    case _ => RetriesAreBounded(c, o.tunnel, clock, ticks, t0, d, k);
  }

  lemma RoundedUp(n: nat, lo: nat, d: nat)
    requires n > 0 && (n == 1 || (n - 1) * lo < d)
    ensures lo > 0 ==> (n * lo < d + lo <==> d > 0)
  {
    assert n * lo == (n - 1) * lo + lo;
  }

  lemma RetriesFromStart(c: Timing, o: Tunnel, clock: nat, ticks: seq<Event>, t0: nat, d: nat)
    requires Good(o, clock) && OnlyTicks(c, clock, ticks) && Retrying(c, o, t0, d, 1)
    ensures var n := 1 + Initiations(c, o, clock, ticks);
      (n == 1 || (n - 1) * Lo(c) < d) && (Lo(c) > 0 ==> (n * Lo(c) < d + Lo(c) <==> d > 0))
  {
    RetriesAreBounded(c, o, clock, ticks, t0, d, 1);
    RoundedUp(1 + Initiations(c, o, clock, ticks), Lo(c), d);
  }

  lemma DefaultBudget(c: Timing, roll: Roll)
    requires c.rekeyTimeout.IsZero() && c.attempts.IsZero() && roll.Allowed(c)
    ensures Lo(c) == 5_000 && roll.rekeyTimeout * roll.attempts * 1000 == 90_000
  {
  }

  /**
   The retry bound. However a handshake was started, if nothing but ticks
   follows it sends `n` initiations with `(n - 1) * Lo(rekey_timeout)` under
   the deadline, or only the first. So `n` is at most the quotient rounded up
   exactly when the deadline is not zero; with the default ranges at most 18.
   */
  lemma RetryBound(c: Timing, s: Tunnel, clock: nat, force: bool, roll: Roll, now: nat, ticks: seq<Event>, o: Tunnel)
    requires Good(s, clock) && clock <= now && !s.InProgress() && roll.Allowed(c)
    requires OnlyTicks(c, now, ticks) && o == Initiate(s, force, true, roll, now).tunnel
    ensures Good(o, now)
    ensures var n := 1 + Initiations(c, o, now, ticks); var d := roll.rekeyTimeout * roll.attempts * 1000;
      && (n == 1 || (n - 1) * Lo(c) < d)
      && (Lo(c) > 0 ==> (n * Lo(c) < d + Lo(c) <==> d > 0))
      && (c.rekeyTimeout.IsZero() && c.attempts.IsZero() ==> n <= 18)
  {
    InitiateKeeps(s, clock, force, true, roll, now);
    StartsRetrying(c, s, clock, force, roll, now);
    var d := roll.rekeyTimeout * roll.attempts * 1000;
    RetriesFromStart(c, o, now, ticks, o.timers[STARTED], d);
    if c.rekeyTimeout.IsZero() && c.attempts.IsZero() { DefaultBudget(c, roll); }
  }

  /** An attempt budget of zero still sends the first initiation. */
  lemma ZeroBudgetStillInitiates()
    ensures var c := Timing(Range(0, 0), Range(0, 0), Range(0, 0), Range(0, 0), Range(0, 1), Range(0, 0), 0);
      var roll := Roll(5, 0, 0, 1); var o := Initiate(Fresh(0), false, true, roll, 0);
      roll.Allowed(c) && o.action == Initiated && o.tunnel.deadline == 0
  {
  }

  // ---- Keepalives ----

  /** How many packets a run of ticks sends on sessions; a tick sends only keepalives. */
  ghost function Keepalives(c: Timing, s: Tunnel, clock: nat, ticks: seq<Event>): nat
    requires Good(s, clock) && OnlyTicks(c, clock, ticks)
    decreases |ticks|
  {
    if ticks == [] then 0 else
    var e := ticks[0];
    var o := Tick(c, s, e.readings, e.picks, e.room);
    StepKeepsGood(c, s, clock, e);
    (if o.action == SentPacket then 1 else 0) + Keepalives(c, o.tunnel, ClockAfter(clock, e), ticks[1..])
  }

  /** A keepalive went out only if one was owed, and then none is. */
  predicate Acknowledged(s: Tunnel, o: Effect) {
    && (o.action == SentPacket ==> s.wantKeepalive && !o.tunnel.wantKeepalive)
    && (o.tunnel.wantKeepalive ==> s.wantKeepalive)
  }

  lemma QuietKeepalive(c: Timing, s: Tunnel, p: Picks, room: bool, now: nat)
    requires s.Sized() && forall i :: 0 <= i < TOP ==> s.timers[i] <= s.Now()
    requires c.persistent.IsZero() && c.persistentFixed == 0
    ensures Acknowledged(s, Quiet(c, s, p, room, now))
  {
  }

  /** Without persistent keepalives a tick sends one only if one is owed, and then none is. */
  lemma TickKeepalive(c: Timing, s: Tunnel, clock: nat, r: Readings, p: Picks, room: bool)
    requires Good(s, clock) && clock <= r.now && r.Ordered()
    requires c.persistent.IsZero() && c.persistentFixed == 0
    ensures Acknowledged(s, Tick(c, s, r, p, room))
  {
    var e := Entered(s, r.now, c.Reject());
    EnteredKeeps(s, clock, r.now, c.Reject());
    QuietKeepalive(c, CookieDropped(e), p, room, r.later);
  }

  /** However long nothing arrives, what arrived last is acknowledged by at most one keepalive. */
  lemma {:induction false} OneKeepalive(c: Timing, s: Tunnel, clock: nat, ticks: seq<Event>)
    requires Good(s, clock) && OnlyTicks(c, clock, ticks)
    requires c.persistent.IsZero() && c.persistentFixed == 0
    ensures Keepalives(c, s, clock, ticks) <= if s.wantKeepalive then 1 else 0
    decreases |ticks|
  {
    if ticks != [] {
      var e := ticks[0];
      StepKeepsGood(c, s, clock, e);
      TickKeepalive(c, s, clock, e.readings, e.picks, e.room);
      OneKeepalive(c, Tick(c, s, e.readings, e.picks, e.room).tunnel, ClockAfter(clock, e), ticks[1..]);
    }
  }
}
