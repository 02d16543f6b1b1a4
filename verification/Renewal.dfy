/**
 When the timers act: what makes a tick start a handshake, repeat one, give up
 or send a keepalive, in both directions; that an initiator which keeps sending
 renews its session before it is rejected; and which session is in use.
 */
module Renewal {
  import opened Options
  import opened Timers

  // ---- The tick, once the time is in ----

  /** The tunnel when a tick comes to decide: the time is in, old sessions and an old cookie are out. */
  function Live(c: Timing, s: Tunnel, now: nat): Tunnel
    requires s.Sized() && (forall i :: 0 <= i < TOP ==> s.timers[i] <= now)
    requires forall i :: 0 <= i < N_SESSIONS ==> s.sessionTimers[i] <= now
  {
    CookieDropped(Entered(s, now, c.Reject()))
  }

  lemma LiveIs(c: Timing, s: Tunnel, clock: nat, now: nat)
    requires Good(s, clock) && clock <= now
    ensures var l := Live(c, s, now);
      && Good(l, now) && l.timers == s.timers[CURRENT := now] && l.state == s.state && l.current == s.current
      && l.isInitiator == s.isInitiator && l.wantKeepalive == s.wantKeepalive && l.wantHandshake == s.wantHandshake
      && l.rekeyTimeout == s.rekeyTimeout && l.deadline == s.deadline && l.persistentNext == s.persistentNext
      && forall k :: 0 <= k < N_SESSIONS ==>
           l.sessions[k] == if now - s.sessionTimers[k] > c.Reject() then None else s.sessions[k]
  {
    EnteredKeeps(s, clock, now, c.Reject());
  }

  /** A tick of a tunnel that is up: not expired, and established not too long ago. */
  ghost predicate Up(c: Timing, s: Tunnel, clock: nat, r: Readings, p: Picks) {
    && c.Valid() && Good(s, clock) && clock <= r.now && r.Ordered() && p.Allowed(c)
    && !s.state.Expired? && r.now - s.timers[ESTABLISHED] < c.Reject() * 3
  }

  lemma TickQuiet(c: Timing, s: Tunnel, clock: nat, r: Readings, p: Picks, room: bool)
    requires Up(c, s, clock, r, p) && s.state.Idle?
    ensures var l := Live(c, s, r.now);
      Good(l, r.now) && Tick(c, s, r, p, room) == Quiet(c, l, p, room, r.later)
  {
    LiveIs(c, s, clock, r.now);
  }

  // ---- When a tick starts a handshake ----

  /** An initiator's session has lasted `age` since it was established, and data was sent since. */
  predicate SentSince(s: Tunnel, now: nat, age: nat)
    requires s.Sized()
  {
    s.isInitiator && s.timers[ESTABLISHED] < s.timers[DATA_SENT] && now >= s.timers[ESTABLISHED] + age
  }

  /** Likewise, and data was received since. */
  predicate ReceivedSince(s: Tunnel, now: nat, age: nat)
    requires s.Sized()
  {
    s.isInitiator && s.timers[ESTABLISHED] < s.timers[DATA_RECEIVED] && now >= s.timers[ESTABLISHED] + age
  }

  /** Data went out after the last packet came in, that is `age` ago, and no handshake was started for it yet. */
  predicate NoAnswer(s: Tunnel, now: nat, age: nat)
    requires s.Sized()
  {
    s.wantHandshake && s.timers[RECEIVED] < s.timers[DATA_SENT] && now >= s.timers[RECEIVED] + age
  }

  /** Data came in after the last packet went out, that is `age` ago, and it is not acknowledged yet. */
  predicate OwesAnswer(s: Tunnel, now: nat, age: nat)
    requires s.Sized()
  {
    s.wantKeepalive && s.timers[SENT] < s.timers[DATA_RECEIVED] && now >= s.timers[SENT] + age
  }

  /** The interval of persistent keepalives is over. */
  predicate IntervalOver(c: Timing, s: Tunnel, now: nat)
    requires s.Sized()
  {
    if c.persistent.IsZero() then c.persistentFixed > 0 && now >= s.timers[PERSISTENT] + c.persistentFixed * 1000
    else now >= s.timers[PERSISTENT] + s.persistentNext
  }

  /** The session in use has outlived the rejection time, or there is none. */
  predicate NoSession(c: Timing, s: Tunnel, now: nat)
    requires s.Sized()
  {
    var k := s.current % N_SESSIONS;
    s.sessions[k].None? || now > s.sessionTimers[k] + c.Reject()
  }

  /** The reasons to start a handshake, with the ages of one tick's picks. */
  ghost predicate Reasons(c: Timing, s: Tunnel, now: nat, p: Picks)
    requires s.Sized()
  {
    || SentSince(s, now, p.rekeyAfter * 1000)
    || ReceivedSince(s, now, SubOrZero(p.reject, c.Margin()) * 1000)
    || NoAnswer(s, now, c.Patience(p.rekey) * 1000 + p.jitter)
  }

  /** The reasons to send a keepalive. */
  ghost predicate Wanted(c: Timing, s: Tunnel, now: nat, p: Picks)
    requires s.Sized()
  {
    OwesAnswer(s, now, p.keepaliveTimeout * 1000) || IntervalOver(c, s, now)
  }

  lemma ReasonsAre(c: Timing, s: Tunnel, p: Picks)
    requires s.Sized() && forall i :: 0 <= i < TOP ==> s.timers[i] <= s.Now()
    ensures Reasons(c, s, s.Now(), p) <==> RenewalDue(c, s, p) || (Unanswered(c, s, p) && s.wantHandshake)
  {
  }

  lemma WantedIs(c: Timing, s: Tunnel, p: Picks)
    requires s.Sized() && s.timers[SENT] <= s.Now() && s.timers[PERSISTENT] <= s.Now()
    ensures Wanted(c, s, s.Now(), p) <==> (Owed(s, p) && s.wantKeepalive) || PersistentDue(c, s)
  {
  }

  lemma KeepaliveActs(c: Timing, s: Tunnel, p: Picks, room: bool, now: nat)
    requires s.Sized() && s.state.Idle? && s.timers[SENT] <= s.Now() && s.timers[PERSISTENT] <= s.Now()
    ensures var none := s.sessions[s.current % N_SESSIONS].None?; var o := Keepalive(c, s, p, room, now).action;
      && (o == Initiated <==> room && none && Wanted(c, s, s.Now(), p))
      && (o == SentPacket <==> room && !none && Wanted(c, s, s.Now(), p))
  {
    WantedIs(c, s, p);
  }

  lemma QuietActs(c: Timing, s: Tunnel, p: Picks, room: bool, now: nat)
    requires s.Sized() && s.state.Idle? && forall i :: 0 <= i < TOP ==> s.timers[i] <= s.Now()
    ensures var none := s.sessions[s.current % N_SESSIONS].None?; var o := Quiet(c, s, p, room, now).action;
      && (o == Initiated <==> room && (Reasons(c, s, s.Now(), p) || (none && Wanted(c, s, s.Now(), p))))
      && (o == SentPacket <==> room && !Reasons(c, s, s.Now(), p) && !none && Wanted(c, s, s.Now(), p))
  {
    ReasonsAre(c, s, p);
    var a := if Unanswered(c, s, p) then s.(wantHandshake := false) else s;
    KeepaliveActs(c, a, p, room, now);
  }

  /** What decides is the same before the time is in, a session too old counting as none. */
  lemma LiveDecides(c: Timing, s: Tunnel, clock: nat, now: nat, p: Picks)
    requires Good(s, clock) && clock <= now
    ensures var l := Live(c, s, now);
      && Good(l, now) && l.Now() == now && l.state == s.state
      && (Reasons(c, l, now, p) <==> Reasons(c, s, now, p)) && (Wanted(c, l, now, p) <==> Wanted(c, s, now, p))
      && (l.sessions[l.current % N_SESSIONS].None? <==> NoSession(c, s, now))
  {
    LiveIs(c, s, clock, now);
  }

  /**
   Exactly when a tick outside a handshake of our own starts one: an initiator's
   session with data on it is old enough, or data got no answer for long enough,
   or a keepalive is wanted and there is no session for it. So a responder never
   starts a handshake because its session is old.
   */
  lemma TickStarts(c: Timing, s: Tunnel, clock: nat, r: Readings, p: Picks, room: bool)
    requires Up(c, s, clock, r, p) && s.state.Idle?
    ensures Tick(c, s, r, p, room).action == Initiated <==>
      room && (Reasons(c, s, r.now, p) || (NoSession(c, s, r.now) && Wanted(c, s, r.now, p)))
  {
    LiveDecides(c, s, clock, r.now, p);
    TickQuiet(c, s, clock, r, p, room);
    QuietActs(c, Live(c, s, r.now), p, room, r.later);
  }

  /** And exactly when it sends a keepalive on the session in use. */
  lemma TickSends(c: Timing, s: Tunnel, clock: nat, r: Readings, p: Picks, room: bool)
    requires Up(c, s, clock, r, p) && s.state.Idle?
    ensures Tick(c, s, r, p, room).action == SentPacket <==>
      room && !Reasons(c, s, r.now, p) && !NoSession(c, s, r.now) && Wanted(c, s, r.now, p)
  {
    LiveDecides(c, s, clock, r.now, p);
    TickQuiet(c, s, clock, r, p, room);
    QuietActs(c, Live(c, s, r.now), p, room, r.later);
  }

  function RekeyHi(c: Timing): nat { c.rekeyAfter.HiOr(120) * 1000 }

  function ReceiverHi(c: Timing): nat { SubOrZero(c.rejectAfter.HiOr(180), c.Margin()) * 1000 }

  /** At the upper ends of the ranges a handshake starts whatever is picked. */
  lemma TickStartsAtTheLatest(c: Timing, s: Tunnel, clock: nat, r: Readings, p: Picks)
    requires Up(c, s, clock, r, p) && s.state.Idle?
    requires SentSince(s, r.now, RekeyHi(c)) || ReceivedSince(s, r.now, ReceiverHi(c))
    ensures Tick(c, s, r, p, true).action == Initiated
  {
    TickStarts(c, s, clock, r, p, true);
  }

  // ---- When a tick repeats a handshake or gives up ----

  /**
   In a handshake of our own a tick gives up exactly at the deadline, and
   before it repeats the initiation exactly when the timeout drawn for the last
   one has passed.
   */
  lemma TickRetries(c: Timing, s: Tunnel, clock: nat, r: Readings, p: Picks, room: bool)
    requires Up(c, s, clock, r, p) && s.state.InitSent?
    ensures var o := Tick(c, s, r, p, room);
      var over := r.now >= s.timers[STARTED] + s.deadline;
      var late := s.rekeyTimeout == 0 || r.elapsedAt >= s.state.sentAt + s.rekeyTimeout;
      && (o.action == ConnectionExpired <==> over)
      && (o.action == Initiated <==> !over && late && room)
  {
    LiveIs(c, s, clock, r.now);
  }

  /** A tick three rejection times after the last session gives the connection up, and nothing is left of it. */
  lemma TickGivesUp(c: Timing, s: Tunnel, clock: nat, r: Readings, p: Picks, room: bool)
    requires Good(s, clock) && clock <= r.now && r.Ordered() && !s.state.Expired?
    requires r.now - s.timers[ESTABLISHED] >= c.Reject() * 3
    ensures var o := Tick(c, s, r, p, room);
      o.action == ConnectionExpired && o.tunnel.state.Expired? && Empty(o.tunnel.sessions)
  {
    LiveIs(c, s, clock, r.now);
  }

  // ---- What the timers say of a run ----

  /** The event establishes a session. */
  predicate Establishes(s: Tunnel, e: Event) {
    || e.AnswerInit?
    || (&& e.TakeResponse? && e.authentic
        && ((s.state.InitSent? && s.state.index == e.index) || (s.previous.InitSent? && s.previous.index == e.index)))
  }

  /** The event starts a handshake, or repeats one. */
  ghost predicate Initiates(c: Timing, m: Moment, e: Event)
    requires Good(m.tunnel, m.clock) && Timely(c, m.clock, e)
  {
    match e
    case TimerTick(r, p, room) => Tick(c, m.tunnel, r, p, room).action == Initiated
    case SendPacket(empty, room, roll, at) => Encapsulate(m.tunnel, empty, room, roll, at).action == Initiated
    case _ => false
  }

  /** The event sends data on a session. */
  predicate SendsData(s: Tunnel, e: Event)
    requires s.Sized()
  {
    e.SendPacket? && !e.empty && e.room && s.sessions[s.current % N_SESSIONS].Some?
  }

  /** The event brings data in on a session. */
  predicate BringsData(s: Tunnel, e: Event)
    requires s.Sized()
  {
    e.TakeData? && e.opens && e.carries && s.sessions[e.index % N_SESSIONS].Some?
  }

  /** The timers of sessions and data, the role and the session in use are the same. */
  predicate SameMarks(s: Tunnel, o: Tunnel) {
    && s.Sized() && o.Sized() && o.isInitiator == s.isInitiator && o.current == s.current
    && o.timers[ESTABLISHED] == s.timers[ESTABLISHED]
    && o.timers[DATA_SENT] == s.timers[DATA_SENT] && o.timers[DATA_RECEIVED] == s.timers[DATA_RECEIVED]
  }

  lemma InitiateMarks(s: Tunnel, force: bool, room: bool, roll: Roll, now: nat)
    requires s.Sized() && !s.state.Expired?
    ensures var o := Initiate(s, force, room, roll, now);
      SameMarks(s, o.tunnel) && o.tunnel.Now() == s.Now()
      && (o.action == Initiated || o.tunnel == s) && (o.action == Initiated ==> o.tunnel.state.InitSent?)
  {
  }

  lemma EncapsulateMarks(s: Tunnel, room: bool, roll: Roll, now: nat)
    requires s.Sized() && !s.state.Expired?
    ensures var o := Encapsulate(s, true, room, roll, now);
      SameMarks(s, o.tunnel) && o.tunnel.Now() == s.Now() && (o.action == Initiated || o.tunnel.state == s.state)
  {
    InitiateMarks(s, false, room, roll, now);
  }

  lemma KeepaliveMarks(c: Timing, s: Tunnel, p: Picks, room: bool, now: nat)
    requires s.Sized() && !s.state.Expired? && s.timers[SENT] <= s.Now() && s.timers[PERSISTENT] <= s.Now()
    ensures var o := Keepalive(c, s, p, room, now);
      SameMarks(s, o.tunnel) && o.tunnel.Now() == s.Now() && (o.action == Initiated || o.tunnel.state == s.state)
  {
    var a := if Owed(s, p) then s.(wantKeepalive := false) else s;
    var b := if PersistentDue(c, a) then PersistentRenewed(c, a, p) else a;
    PersistentMarks(c, a, p);
    EncapsulateMarks(b, room, p.roll, now);
  }

  lemma PersistentMarks(c: Timing, s: Tunnel, p: Picks)
    requires s.Sized()
    ensures var o := PersistentRenewed(c, s, p); SameMarks(s, o) && o.Now() == s.Now() && o.state == s.state
  {
  }

  lemma QuietMarks(c: Timing, s: Tunnel, p: Picks, room: bool, now: nat)
    requires s.Sized() && !s.state.Expired? && forall i :: 0 <= i < TOP ==> s.timers[i] <= s.Now()
    ensures var o := Quiet(c, s, p, room, now);
      SameMarks(s, o.tunnel) && o.tunnel.Now() == s.Now() && (o.action == Initiated || o.tunnel.state == s.state)
  {
    var a := if Unanswered(c, s, p) then s.(wantHandshake := false) else s;
    InitiateMarks(a, true, room, p.roll, now);
    KeepaliveMarks(c, a, p, room, now);
  }

  lemma ProceedMarks(c: Timing, s: Tunnel, r: Readings, p: Picks, room: bool)
    requires s.Sized() && !s.state.Expired? && s.Now() == r.now && forall i :: 0 <= i < TOP ==> s.timers[i] <= s.Now()
    requires !Proceed(c, s, r, p, room).tunnel.state.Expired?
    ensures var o := Proceed(c, s, r, p, room);
      SameMarks(s, o.tunnel) && o.tunnel.Now() == s.Now() && (o.action == Initiated || o.tunnel.state == s.state)
  {
    if s.state.InitSent? { InitiateMarks(s, true, room, p.roll, r.later); }
    else { QuietMarks(c, s, p, room, r.later); }
  }

  /** A tick that does not give up only moves the time. */
  lemma TickMarks(c: Timing, s: Tunnel, clock: nat, r: Readings, p: Picks, room: bool)
    requires Good(s, clock) && clock <= r.now && r.Ordered() && !s.state.Expired?
    requires !Tick(c, s, r, p, room).tunnel.state.Expired?
    ensures var o := Tick(c, s, r, p, room);
      SameMarks(s, o.tunnel) && o.tunnel.Now() == r.now && (o.action == Initiated || o.tunnel.state == s.state)
  {
    LiveIs(c, s, clock, r.now);
    ProceedMarks(c, Live(c, s, r.now), r, p, room);
  }

  /** What an event does to the timers of sessions and data, short of giving up. */
  predicate Marked(s: Tunnel, e: Event, o: Tunnel) {
    && s.Sized() && o.Sized()
    && o.timers[ESTABLISHED] == (if Establishes(s, e) then s.Now() else s.timers[ESTABLISHED])
    && o.isInitiator == (if Establishes(s, e) then e.TakeResponse? else s.isInitiator)
    && o.timers[DATA_SENT] == (if SendsData(s, e) then s.Now() else s.timers[DATA_SENT])
    && o.timers[DATA_RECEIVED] == (if BringsData(s, e) then s.Now() else s.timers[DATA_RECEIVED])
    && o.Now() == (if e.TimerTick? then e.readings.now else s.Now())
  }

  lemma RespondedMarks(s: Tunnel, index: nat, authentic: bool, at: nat)
    requires s.Sized()
    ensures Marked(s, TakeResponse(index, authentic, at), Responded(s, index, authentic, at))
  {
    CompletedMarks(s.(state := Idle), index, at);
    CompletedMarks(s.(previous := Idle), index, at);
  }

  lemma CompletedMarks(s: Tunnel, index: nat, at: nat)
    requires s.Sized()
    ensures var o := Completed(s, index, at);
      && o.Sized() && o.timers == s.timers[RECEIVED := s.Now()][ESTABLISHED := s.Now()] && o.isInitiator
  {
  }

  lemma DataMarks(s: Tunnel, index: nat, opens: bool, carries: bool)
    requires s.Sized()
    ensures Marked(s, TakeData(index, opens, carries), DataArrived(s, index, opens, carries))
  {
    var a := Switched(s, index);
    assert a.timers == s.timers && a.isInitiator == s.isInitiator && a.Sized();
  }

  lemma SendMarks(s: Tunnel, empty: bool, room: bool, roll: Roll, at: nat)
    requires s.Sized() && !s.state.Expired?
    ensures Marked(s, SendPacket(empty, room, roll, at), Encapsulate(s, empty, room, roll, at).tunnel)
  {
    if s.sessions[s.current % N_SESSIONS].None? { InitiateMarks(s, false, room, roll, at); }
  }

  lemma StepMarks(c: Timing, s: Tunnel, clock: nat, e: Event)
    requires Good(s, clock) && Timely(c, clock, e) && !s.state.Expired? && !Next(c, s, clock, e).state.Expired?
    ensures Marked(s, e, Next(c, s, clock, e))
  {
    match e
    case TimerTick(r, p, room) => TickMarks(c, s, clock, r, p, room);
    case SendPacket(empty, room, roll, at) => SendMarks(s, empty, room, roll, at);
    case TakeResponse(index, authentic, at) => RespondedMarks(s, index, authentic, at);
    case TakeData(index, opens, carries) => DataMarks(s, index, opens, carries);
    case _ =>
  }

  /** Event `k` establishes a session, none does after it up to `n`, and the tunnel is not given up meanwhile. */
  ghost predicate Latest(run: seq<Moment>, events: seq<Event>, k: nat, n: nat) {
    && k < n <= |events| && |run| == |events| + 1
    && Establishes(run[k].tunnel, events[k])
    && (forall i :: k < i < n ==> !Establishes(run[i].tunnel, events[i]))
    && forall i :: k <= i <= n ==> !run[i].tunnel.state.Expired?
  }

  /** Data was sent between the two, later than `t`. */
  ghost predicate SentAfter(run: seq<Moment>, events: seq<Event>, k: nat, n: nat, t: nat)
    requires n <= |events| && |run| == |events| + 1 && forall i :: k < i < n ==> run[i].tunnel.Sized()
  {
    exists m :: k < m < n && SendsData(run[m].tunnel, events[m]) && t < run[m].tunnel.Now()
  }

  ghost predicate ReceivedAfter(run: seq<Moment>, events: seq<Event>, k: nat, n: nat, t: nat)
    requires n <= |events| && |run| == |events| + 1 && forall i :: k < i < n ==> run[i].tunnel.Sized()
  {
    exists m :: k < m < n && BringsData(run[m].tunnel, events[m]) && t < run[m].tunnel.Now()
  }

  ghost predicate Steps(run: seq<Moment>, events: seq<Event>, k: nat, n: nat) {
    && k < n <= |events| && |run| == |events| + 1
    && (forall i :: k <= i <= n ==> run[i].tunnel.Sized())
    && (forall i :: k <= i < n ==>
          Marked(run[i].tunnel, events[i], run[i + 1].tunnel) && run[i].tunnel.Now() <= run[i + 1].tunnel.Now())
  }

  lemma {:induction false} MarksSince(run: seq<Moment>, events: seq<Event>, k: nat, n: nat, t: nat)
    requires Steps(run, events, k, n) && Latest(run, events, k, n) && t == run[k].tunnel.Now()
    requires run[k].tunnel.timers[DATA_SENT] <= t && run[k].tunnel.timers[DATA_RECEIVED] <= t
    ensures var s := run[n].tunnel;
      && s.timers[ESTABLISHED] == t && s.isInitiator == events[k].TakeResponse?
      && (t < s.timers[DATA_SENT] <==> SentAfter(run, events, k, n, t))
      && (t < s.timers[DATA_RECEIVED] <==> ReceivedAfter(run, events, k, n, t))
      && forall i :: k <= i <= n ==> run[i].tunnel.Now() <= s.Now()
    decreases n
  {
    var m := n - 1;
    assert Marked(run[m].tunnel, events[m], run[n].tunnel);
    if k < m {
      MarksSince(run, events, k, m, t);
      AfterOneMore(run, events, k, m, t);
    }
  }

  lemma AfterOneMore(run: seq<Moment>, events: seq<Event>, k: nat, m: nat, t: nat)
    requires k < m < |events| && |run| == |events| + 1 && forall i :: k < i <= m ==> run[i].tunnel.Sized()
    ensures SentAfter(run, events, k, m + 1, t) <==>
      SentAfter(run, events, k, m, t) || (SendsData(run[m].tunnel, events[m]) && t < run[m].tunnel.Now())
    ensures ReceivedAfter(run, events, k, m + 1, t) <==>
      ReceivedAfter(run, events, k, m, t) || (BringsData(run[m].tunnel, events[m]) && t < run[m].tunnel.Now())
  {
  }

  lemma {:induction false} RunSteps(c: Timing, run: seq<Moment>, events: seq<Event>, k: nat, n: nat)
    requires IsRun(c, run, events) && Latest(run, events, k, n)
    ensures Steps(run, events, k, n)
    ensures run[k].tunnel.timers[DATA_SENT] <= run[k].tunnel.Now()
    ensures run[k].tunnel.timers[DATA_RECEIVED] <= run[k].tunnel.Now()
  {
    forall i | k <= i <= n ensures Good(run[i].tunnel, run[i].clock) {
      RunIsGood(c, run, events, i);
    }
    forall i | k <= i < n
      ensures Marked(run[i].tunnel, events[i], run[i + 1].tunnel) && run[i].tunnel.Now() <= run[i + 1].tunnel.Now()
    {
      assert !run[i + 1].tunnel.state.Expired?;
      StepMarks(c, run[i].tunnel, run[i].clock, events[i]);
    }
  }

  /**
   Over every run, what the first two reasons mean: the latest session came
   from a response to an initiation of ours, data went out (came in) later than
   the time it was stamped with, and that is long enough ago.
   */
  lemma ReasonsOfRun(c: Timing, run: seq<Moment>, events: seq<Event>, k: nat, n: nat, now: nat, age: nat)
    requires IsRun(c, run, events) && Latest(run, events, k, n)
    ensures Steps(run, events, k, n)
    ensures var t := run[k].tunnel.Now();
      && (SentSince(run[n].tunnel, now, age) <==>
            events[k].TakeResponse? && SentAfter(run, events, k, n, t) && now >= t + age)
      && (ReceivedSince(run[n].tunnel, now, age) <==>
            events[k].TakeResponse? && ReceivedAfter(run, events, k, n, t) && now >= t + age)
  {
    RunSteps(c, run, events, k, n);
    MarksSince(run, events, k, n, run[k].tunnel.Now());
  }

  // ---- An initiator renews in time ----

  /** A tunnel outside a handshake stays so until it initiates or gives up. */
  lemma StaysIdle(c: Timing, s: Tunnel, clock: nat, e: Event)
    requires Good(s, clock) && Timely(c, clock, e) && s.state.Idle? && !Initiates(c, Moment(s, clock), e)
    requires e.TimerTick? ==> e.readings.now - s.timers[ESTABLISHED] < c.Reject() * 3
    ensures Next(c, s, clock, e).state.Idle?
  {
    match e
    case TimerTick(r, p, room) =>
      LiveIs(c, s, clock, r.now);
      QuietMarks(c, Live(c, s, r.now), p, room, r.later);
    case _ =>
  }

  /** Ticks come at most a second apart, with room to send. */
  ghost predicate Brisk(run: seq<Moment>, events: seq<Event>) {
    && |run| == |events| + 1
    && forall i :: 0 <= i < |events| && events[i].TimerTick? ==>
      events[i].room && run[i].tunnel.Sized() && events[i].readings.now <= run[i].tunnel.Now() + 1000
  }

  /** Between the two an initiation goes out, when the time is at most `t`. */
  ghost predicate InitiatesBy(c: Timing, run: seq<Moment>, events: seq<Event>, k: nat, n: nat, t: nat)
    requires IsRun(c, run, events) && n <= |events|
  {
    exists j :: k < j < n && InitiatesAt(c, run, events, j, t)
  }

  ghost predicate InitiatesAt(c: Timing, run: seq<Moment>, events: seq<Event>, j: nat, t: nat)
    requires IsRun(c, run, events) && j < |events|
  {
    RunIsGood(c, run, events, j);
    RunIsGood(c, run, events, j + 1);
    Initiates(c, run[j], events[j]) && run[j + 1].tunnel.Now() <= t
  }

  /** Nothing is due yet: the session's role and stamp stand, and if data went out its time has not come. */
  ghost predicate Pending(c: Timing, s: Tunnel, t0: nat, sent: nat, past: bool) {
    && s.Sized() && s.state.Idle? && s.isInitiator && s.timers[ESTABLISHED] == t0
    && (if past then t0 < s.timers[DATA_SENT] && (s.Now() == sent || s.Now() < t0 + RekeyHi(c)) else s.Now() <= sent)
  }

  function Max(a: nat, b: nat): nat { if a < b then b else a }

  lemma PendingStep(c: Timing, s: Tunnel, clock: nat, e: Event, t0: nat, sent: nat, past: bool)
    requires c.Valid() && Good(s, clock) && Timely(c, clock, e) && Pending(c, s, t0, sent, past)
    requires !Establishes(s, e) && !Initiates(c, Moment(s, clock), e)
    requires e.TimerTick? ==> e.room && e.readings.now < t0 + c.Reject() * 3
    ensures var o := Next(c, s, clock, e);
      && Marked(s, e, o) && o.state.Idle?
      && (past ==> Pending(c, o, t0, sent, true))
      && (!past && o.Now() <= sent ==> Pending(c, o, t0, sent, false))
      && (!past && SendsData(s, e) && s.Now() == sent && t0 < sent ==> Pending(c, o, t0, sent, true))
  {
    StaysIdle(c, s, clock, e);
    StepMarks(c, s, clock, e);
    if past && e.TimerTick? && SentSince(s, e.readings.now, RekeyHi(c)) {
      TickStartsAtTheLatest(c, s, clock, e.readings, e.picks);
    }
  }

  /** An initiation seen while nothing was due yet comes in time. */
  lemma PendingInitiates(c: Timing, s: Tunnel, clock: nat, e: Event, t0: nat, sent: nat, past: bool)
    requires c.Valid() && Good(s, clock) && Timely(c, clock, e) && Pending(c, s, t0, sent, past)
    requires Initiates(c, Moment(s, clock), e)
    requires e.TimerTick? ==> e.readings.now <= s.Now() + 1000
    ensures var o := Next(c, s, clock, e);
      o.Sized() && o.Now() <= Max(t0 + RekeyHi(c), sent) + 1000
  {
    match e
    case TimerTick(r, p, room) => TickInitiates(c, s, clock, r, p, room);
    case SendPacket(empty, room, roll, at) => InitiateMarks(s, false, room, roll, at);
  }

  lemma TickInitiates(c: Timing, s: Tunnel, clock: nat, r: Readings, p: Picks, room: bool)
    requires Good(s, clock) && clock <= r.now && r.Ordered() && s.state.Idle?
    requires Tick(c, s, r, p, room).action == Initiated
    ensures var o := Tick(c, s, r, p, room).tunnel; o.Sized() && o.Now() == r.now
  {
    LiveIs(c, s, clock, r.now);
    QuietMarks(c, Live(c, s, r.now), p, room, r.later);
  }

  /** Event `k` completes a session of ours, event `m` sends data on it, and no other is established up to `n`. */
  ghost predicate Carries(c: Timing, run: seq<Moment>, events: seq<Event>, k: nat, m: nat, n: nat) {
    && IsRun(c, run, events) && c.Valid() && Brisk(run, events) && k < m < n <= |events|
    && run[k].tunnel.Sized() && run[m].tunnel.Sized()
    && events[k].TakeResponse? && Establishes(run[k].tunnel, events[k])
    && (forall i :: k < i < n ==> !Establishes(run[i].tunnel, events[i]))
    && SendsData(run[m].tunnel, events[m]) && run[k].tunnel.Now() < run[m].tunnel.Now()
    && Deadline(c, run, k, m) < run[k].tunnel.Now() + c.Reject() * 3
  }

  /** A second after the session is due and data was sent. */
  ghost function Deadline(c: Timing, run: seq<Moment>, k: nat, m: nat): nat
    requires k < |run| && m < |run| && run[k].tunnel.Sized() && run[m].tunnel.Sized()
  {
    Max(run[k].tunnel.Now() + RekeyHi(c), run[m].tunnel.Now()) + 1000
  }

  lemma WaitingStarts(c: Timing, run: seq<Moment>, events: seq<Event>, k: nat, m: nat, n: nat)
    requires Carries(c, run, events, k, m, n) && run[k + 1].tunnel.state.Idle?
    ensures Pending(c, run[k + 1].tunnel, run[k].tunnel.Now(), run[m].tunnel.Now(), false)
  {
    RunIsGood(c, run, events, k);
    RespondedMarks(run[k].tunnel, events[k].index, events[k].authentic, events[k].at);
  }

  lemma WaitingStep(c: Timing, run: seq<Moment>, events: seq<Event>, k: nat, m: nat, n: nat, i: nat)
    requires Carries(c, run, events, k, m, n) && k < i < n
    requires Pending(c, run[i].tunnel, run[k].tunnel.Now(), run[m].tunnel.Now(), i > m)
    ensures
      || InitiatesAt(c, run, events, i, Deadline(c, run, k, m))
      || Pending(c, run[i + 1].tunnel, run[k].tunnel.Now(), run[m].tunnel.Now(), i + 1 > m)
  {
    RunIsGood(c, run, events, i);
    RunIsGood(c, run, events, i + 1);
    var s, clock, e, t0, sent := run[i].tunnel, run[i].clock, events[i], run[k].tunnel.Now(), run[m].tunnel.Now();
    if Initiates(c, run[i], e) {
      PendingInitiates(c, s, clock, e, t0, sent, i > m);
    } else {
      if i < m { StampIsLatest(c, run, events, m, i + 1, 0); }
      PendingStep(c, s, clock, e, t0, sent, i > m);
    }
  }

  lemma {:induction false} Waiting(c: Timing, run: seq<Moment>, events: seq<Event>, k: nat, m: nat, n: nat, i: nat)
    requires Carries(c, run, events, k, m, n) && run[k + 1].tunnel.state.Idle? && k < i <= n
    ensures
      || InitiatesBy(c, run, events, k, i, Deadline(c, run, k, m))
      || Pending(c, run[i].tunnel, run[k].tunnel.Now(), run[m].tunnel.Now(), i > m)
    decreases i
  {
    if i == k + 1 {
      WaitingStarts(c, run, events, k, m, n);
    } else {
      Waiting(c, run, events, k, m, n, i - 1);
      if !InitiatesBy(c, run, events, k, i - 1, Deadline(c, run, k, m)) {
        WaitingStep(c, run, events, k, m, n, i - 1);
      }
    }
  }

  /** A tunnel that completed a session is not expired. */
  lemma AfterCompletion(c: Timing, run: seq<Moment>, events: seq<Event>, k: nat, m: nat, n: nat)
    requires Carries(c, run, events, k, m, n)
    ensures run[k + 1].tunnel.state.Idle? || run[k + 1].tunnel.InProgress()
  {
    RunIsGood(c, run, events, k);
  }

  lemma PendingOver(c: Timing, s: Tunnel, t0: nat, sent: nat)
    requires s.Sized() && s.Now() >= t0 + RekeyHi(c) && s.Now() > sent
    ensures !Pending(c, s, t0, sent, true)
  {
  }

  /**
   An initiator that sends data renews its session. Over every run with ticks at
   most a second apart: once data went out on the session and its time is over,
   another handshake was already under way when the session began, or one was
   started no more than a second after the session was due and data was sent.
   */
  lemma Renews(c: Timing, run: seq<Moment>, events: seq<Event>, k: nat, m: nat, n: nat)
    requires Carries(c, run, events, k, m, n) && run[n].tunnel.Sized()
    requires run[n].tunnel.Now() >= run[k].tunnel.Now() + RekeyHi(c) && run[n].tunnel.Now() > run[m].tunnel.Now()
    ensures run[k + 1].tunnel.InProgress() || InitiatesBy(c, run, events, k, n, Deadline(c, run, k, m))
  {
    AfterCompletion(c, run, events, k, m, n);
    if !run[k + 1].tunnel.InProgress() {
      Waiting(c, run, events, k, m, n, n);
      PendingOver(c, run[n].tunnel, run[k].tunnel.Now(), run[m].tunnel.Now());
    }
  }

  /**
   With the default timings: by the time the session is rejected, three minutes
   after it was established, the next handshake has been started.
   */
  lemma RenewsBeforeRejection(c: Timing, run: seq<Moment>, events: seq<Event>, k: nat, m: nat, n: nat)
    requires c.rekeyAfter.IsZero() && c.rejectAfter.IsZero()
    requires Carries(c, run, events, k, m, n) && run[n].tunnel.Sized()
    requires run[m].tunnel.Now() < run[k].tunnel.Now() + 179_000
    requires run[n].tunnel.Now() >= run[k].tunnel.Now() + 180_000
    ensures run[k + 1].tunnel.InProgress() || InitiatesBy(c, run, events, k, n, run[k].tunnel.Now() + 179_999)
  {
    Renews(c, run, events, k, m, n);
    if InitiatesBy(c, run, events, k, n, Deadline(c, run, k, m)) {
      var j :| k < j < n && InitiatesAt(c, run, events, j, Deadline(c, run, k, m));
      assert InitiatesAt(c, run, events, j, run[k].tunnel.Now() + 179_999);
    }
  }

  // ---- What is sent and what arrives ----

  /** The event sends something: a packet on a session, an initiation or a response. */
  ghost predicate Sends(c: Timing, m: Moment, e: Event)
    requires Good(m.tunnel, m.clock) && Timely(c, m.clock, e)
  {
    match e
    case TimerTick(r, p, room) => Tick(c, m.tunnel, r, p, room).action in {Initiated, SentPacket}
    case SendPacket(empty, room, roll, at) =>
      Encapsulate(m.tunnel, empty, room, roll, at).action in {Initiated, SentPacket}
    case AnswerInit(_, _) => true
    case _ => false
  }

  /** The event takes in something the peer authenticated. */
  predicate Takes(s: Tunnel, e: Event)
    requires s.Sized()
  {
    Establishes(s, e) || e.TakeCookie? || (e.TakeData? && e.opens && s.sessions[e.index % N_SESSIONS].Some?)
  }

  /** What sending does: the timer of the last packet sent, and the two flags. */
  predicate Sent(s: Tunnel, sends: bool, room: bool, o: Tunnel) {
    && s.Sized() && o.Sized() && o.timers[RECEIVED] == s.timers[RECEIVED]
    && o.timers[SENT] == (if sends then o.Now() else s.timers[SENT])
    && (sends ==> o.wantHandshake && !o.wantKeepalive)
    && (!sends && room ==> o.wantHandshake == s.wantHandshake && o.wantKeepalive == s.wantKeepalive)
  }

  /** Whether a new persistent interval has begun, and how long it is to be. */
  predicate Interval(c: Timing, s: Tunnel, p: Picks, begun: bool, o: Tunnel) {
    && s.Sized() && o.Sized()
    && o.timers[PERSISTENT] == (if begun then o.Now() else s.timers[PERSISTENT])
    && o.persistentNext == (if begun && !c.persistent.IsZero() then p.persistent * 1000 else s.persistentNext)
  }

  lemma InitiateSent(s: Tunnel, force: bool, room: bool, roll: Roll, now: nat)
    requires s.Sized() && !s.state.Expired?
    ensures var o := Initiate(s, force, room, roll, now);
      Sent(s, o.action == Initiated, room, o.tunnel) && o.action != SentPacket && o.tunnel.Now() == s.Now()
      && o.tunnel.timers[PERSISTENT] == s.timers[PERSISTENT] && o.tunnel.persistentNext == s.persistentNext
  {
  }

  lemma EncapsulateSent(s: Tunnel, empty: bool, room: bool, roll: Roll, now: nat)
    requires s.Sized() && !s.state.Expired?
    ensures var o := Encapsulate(s, empty, room, roll, now);
      Sent(s, o.action in {Initiated, SentPacket}, room, o.tunnel) && o.tunnel.Now() == s.Now()
      && o.tunnel.timers[PERSISTENT] == s.timers[PERSISTENT] && o.tunnel.persistentNext == s.persistentNext
  {
    if s.sessions[s.current % N_SESSIONS].None? { InitiateSent(s, false, room, roll, now); }
  }

  /** An idle tunnel with room sends what it is asked to. */
  lemma EncapsulateActs(s: Tunnel, roll: Roll, now: nat)
    requires s.Sized() && s.state.Idle?
    ensures Encapsulate(s, true, true, roll, now).action in {Initiated, SentPacket}
  {
  }

  lemma KeepaliveSent(c: Timing, s: Tunnel, p: Picks, room: bool, now: nat)
    requires s.Sized() && s.state.Idle? && s.timers[SENT] <= s.Now() && s.timers[PERSISTENT] <= s.Now()
    ensures var o := Keepalive(c, s, p, room, now);
      Sent(s, o.action in {Initiated, SentPacket}, room, o.tunnel) && o.tunnel.Now() == s.Now()
      && Interval(c, s, p, PersistentDue(c, s), o.tunnel)
  {
    var a := if Owed(s, p) then s.(wantKeepalive := false) else s;
    var b := if PersistentDue(c, a) then PersistentRenewed(c, a, p) else a;
    RenewedSent(c, a, p);
    EncapsulateSent(b, true, room, p.roll, now);
    EncapsulateActs(b, p.roll, now);
  }

  lemma RenewedSent(c: Timing, s: Tunnel, p: Picks)
    requires s.Sized()
    ensures var o := PersistentRenewed(c, s, p);
      && Sent(s, false, true, o) && o.Now() == s.Now() && o.state == s.state && Interval(c, s, p, true, o)
  {
  }

  lemma QuietSent(c: Timing, s: Tunnel, p: Picks, room: bool, now: nat)
    requires s.Sized() && s.state.Idle? && forall i :: 0 <= i < TOP ==> s.timers[i] <= s.Now()
    ensures var o := Quiet(c, s, p, room, now);
      Sent(s, o.action in {Initiated, SentPacket}, room, o.tunnel)
      && o.tunnel.Now() == s.Now()
      && Interval(c, s, p, !Reasons(c, s, s.Now(), p) && IntervalOver(c, s, s.Now()), o.tunnel)
  {
    ReasonsAre(c, s, p);
    var a := if Unanswered(c, s, p) then s.(wantHandshake := false) else s;
    InitiateSent(a, true, room, p.roll, now);
    KeepaliveSent(c, a, p, room, now);
  }

  lemma ProceedSent(c: Timing, s: Tunnel, r: Readings, p: Picks, room: bool)
    requires s.Sized() && !s.state.Expired? && s.Now() == r.now && forall i :: 0 <= i < TOP ==> s.timers[i] <= s.Now()
    requires !Proceed(c, s, r, p, room).tunnel.state.Expired?
    ensures var o := Proceed(c, s, r, p, room);
      Sent(s, o.action in {Initiated, SentPacket}, room, o.tunnel)
  {
    if s.state.InitSent? { InitiateSent(s, true, room, p.roll, r.later); }
    else { QuietSent(c, s, p, room, r.later); }
  }

  lemma TickSent(c: Timing, s: Tunnel, clock: nat, r: Readings, p: Picks, room: bool)
    requires Good(s, clock) && clock <= r.now && r.Ordered() && !s.state.Expired?
    requires !Tick(c, s, r, p, room).tunnel.state.Expired?
    ensures var o := Tick(c, s, r, p, room);
      Sent(s, o.action in {Initiated, SentPacket}, room, o.tunnel)
  {
    LiveIs(c, s, clock, r.now);
    ProceedSent(c, Live(c, s, r.now), r, p, room);
  }

  /** A tick begins a new persistent interval, with its own pick, exactly if one is over and no handshake is due. */
  lemma TickPersistent(c: Timing, s: Tunnel, clock: nat, r: Readings, p: Picks, room: bool)
    requires Up(c, s, clock, r, p) && s.state.Idle?
    ensures var o := Tick(c, s, r, p, room).tunnel;
      o.Sized() && o.Now() == r.now
      && Interval(c, s, p, !Reasons(c, s, r.now, p) && IntervalOver(c, s, r.now), o)
  {
    LiveDecides(c, s, clock, r.now, p);
    LiveIs(c, s, clock, r.now);
    TickQuiet(c, s, clock, r, p, room);
    QuietSent(c, Live(c, s, r.now), p, room, r.later);
  }

  /** What an event does to the timers of packets and to the flags, short of giving up. */
  predicate Traffic(s: Tunnel, e: Event, sends: bool, o: Tunnel) {
    && s.Sized() && o.Sized()
    && o.timers[SENT] == (if sends then o.Now() else s.timers[SENT])
    && o.timers[RECEIVED] == (if Takes(s, e) then s.Now() else s.timers[RECEIVED])
    && (sends ==> o.wantHandshake && !o.wantKeepalive)
    && (!sends && Takes(s, e) ==> o.wantKeepalive && !o.wantHandshake)
    && (!sends && !Takes(s, e) && (e.TimerTick? ==> e.room) ==>
          o.wantHandshake == s.wantHandshake && o.wantKeepalive == s.wantKeepalive)
  }

  lemma CompletedTraffic(s: Tunnel, index: nat, at: nat)
    requires s.Sized()
    ensures var o := Completed(s, index, at);
      o.Sized() && o.timers[SENT] == s.timers[SENT] && o.timers[RECEIVED] == o.Now() == s.Now()
      && o.wantKeepalive && !o.wantHandshake
  {
  }

  lemma ResponseTraffic(s: Tunnel, index: nat, authentic: bool, at: nat)
    requires s.Sized()
    ensures Traffic(s, TakeResponse(index, authentic, at), false, Responded(s, index, authentic, at))
  {
    CompletedTraffic(s.(state := Idle), index, at);
    CompletedTraffic(s.(previous := Idle), index, at);
  }

  lemma DataTraffic(s: Tunnel, index: nat, opens: bool, carries: bool)
    requires s.Sized()
    ensures Traffic(s, TakeData(index, opens, carries), false, DataArrived(s, index, opens, carries))
  {
    var a := Switched(s, index);
    assert a.timers == s.timers && a.Sized();
    assert a.wantKeepalive == s.wantKeepalive && a.wantHandshake == s.wantHandshake;
  }

  lemma StepTraffic(c: Timing, s: Tunnel, clock: nat, e: Event)
    requires Good(s, clock) && Timely(c, clock, e) && !s.state.Expired? && !Next(c, s, clock, e).state.Expired?
    ensures Traffic(s, e, Sends(c, Moment(s, clock), e), Next(c, s, clock, e))
  {
    match e
    case TimerTick(r, p, room) => TickSent(c, s, clock, r, p, room);
    case SendPacket(empty, room, roll, at) => SendTraffic(s, empty, room, roll, at);
    case AnswerInit(index, at) => AnswerTraffic(s, index, at);
    case TakeResponse(index, authentic, at) => ResponseTraffic(s, index, authentic, at);
    case TakeData(index, opens, carries) => DataTraffic(s, index, opens, carries);
    case TakeCookie => CookieTraffic(s);
    case SetKey =>
  }

  lemma AnswerTraffic(s: Tunnel, index: nat, at: nat)
    requires s.Sized()
    ensures Traffic(s, AnswerInit(index, at), true, Answered(s, index, at))
  {
  }

  lemma CookieTraffic(s: Tunnel)
    requires s.Sized()
    ensures Traffic(s, TakeCookie, false, CookieArrived(s))
  {
  }

  lemma SendTraffic(s: Tunnel, empty: bool, room: bool, roll: Roll, at: nat)
    requires s.Sized() && !s.state.Expired?
    ensures var o := Encapsulate(s, empty, room, roll, at);
      Traffic(s, SendPacket(empty, room, roll, at), o.action in {Initiated, SentPacket}, o.tunnel)
  {
    EncapsulateSent(s, empty, room, roll, at);
    if s.sessions[s.current % N_SESSIONS].None? { InitiateMarks(s, false, room, roll, at); }
  }

  /** From event `m` to event `n` ticks have room and the tunnel does not expire. */
  ghost predicate Span(c: Timing, run: seq<Moment>, events: seq<Event>, m: nat, n: nat) {
    && IsRun(c, run, events) && c.Valid() && m < n < |events|
    && (forall i :: m <= i <= n ==> !run[i].tunnel.state.Expired? && run[i].tunnel.Sized())
    && (forall i :: m <= i <= n && events[i].TimerTick? ==> events[i].room)
  }

  ghost predicate SendsAt(c: Timing, run: seq<Moment>, events: seq<Event>, i: nat)
    requires IsRun(c, run, events) && i < |events|
  {
    RunIsGood(c, run, events, i);
    Sends(c, run[i], events[i])
  }

  ghost predicate StartsAt(c: Timing, run: seq<Moment>, events: seq<Event>, i: nat)
    requires IsRun(c, run, events) && i < |events|
  {
    RunIsGood(c, run, events, i);
    Initiates(c, run[i], events[i])
  }

  /** Data came in at `t` that nothing sent since `t1` acknowledges. */
  predicate Owing(s: Tunnel, t1: nat, t: nat) {
    s.Sized() && s.wantKeepalive && s.timers[SENT] == t1 < t <= s.timers[DATA_RECEIVED] && t <= s.Now()
  }

  lemma OwingStep(c: Timing, s: Tunnel, clock: nat, e: Event, t1: nat, t: nat)
    requires Good(s, clock) && Timely(c, clock, e) && !s.state.Expired? && !Next(c, s, clock, e).state.Expired?
    requires Owing(s, t1, t) && !Sends(c, Moment(s, clock), e) && (e.TimerTick? ==> e.room)
    ensures Owing(Next(c, s, clock, e), t1, t)
  {
    StepTraffic(c, s, clock, e);
    StepMarks(c, s, clock, e);
    RegisterStep(c, s, clock, e);
  }

  lemma {:induction false} OwingAlong(c: Timing, run: seq<Moment>, events: seq<Event>, m: nat, n: nat, i: nat)
    requires Span(c, run, events, m, n) && m < i <= n
    requires BringsData(run[m].tunnel, events[m]) && run[m].tunnel.timers[SENT] < run[m].tunnel.Now()
    requires forall k :: m < k < n ==> !SendsAt(c, run, events, k)
    ensures Owing(run[i].tunnel, run[m].tunnel.timers[SENT], run[m].tunnel.Now())
    decreases i
  {
    var s, clock, e := run[i - 1].tunnel, run[i - 1].clock, events[i - 1];
    RunIsGood(c, run, events, i - 1);
    assert !run[i].tunnel.state.Expired?;
    if i == m + 1 {
      StepTraffic(c, s, clock, e);
      StepMarks(c, s, clock, e);
    } else {
      OwingAlong(c, run, events, m, n, i - 1);
      assert !SendsAt(c, run, events, i - 1);
      OwingStep(c, s, clock, e, run[m].tunnel.timers[SENT], run[m].tunnel.Now());
    }
  }

  /**
   Data is acknowledged. Over every run: if data came in after the last packet
   sent, and nothing went out since, then a tick outside a handshake the upper
   keepalive timeout after that packet sends one.
   */
  lemma Acknowledges(c: Timing, run: seq<Moment>, events: seq<Event>, m: nat, n: nat)
    requires Span(c, run, events, m, n)
    requires BringsData(run[m].tunnel, events[m]) && run[m].tunnel.timers[SENT] < run[m].tunnel.Now()
    requires forall k :: m < k < n ==> !SendsAt(c, run, events, k)
    requires events[n].TimerTick? && run[n].tunnel.state.Idle?
    requires events[n].readings.now >= run[m].tunnel.timers[SENT] + c.keepaliveTimeout.HiOr(10) * 1000
    requires events[n].readings.now < run[n].tunnel.timers[ESTABLISHED] + c.Reject() * 3
    ensures SendsAt(c, run, events, n)
  {
    RunIsGood(c, run, events, n);
    OwingAlong(c, run, events, m, n, n);
    var s, clock, e := run[n].tunnel, run[n].clock, events[n];
    TickStarts(c, s, clock, e.readings, e.picks, true);
    TickSends(c, s, clock, e.readings, e.picks, true);
  }

  /** Data went out at `t` and nothing has come in since `t1`. */
  predicate Unheard(s: Tunnel, t1: nat, t: nat) {
    s.Sized() && s.wantHandshake && s.timers[RECEIVED] == t1 < t <= s.timers[DATA_SENT] && t <= s.Now()
  }

  lemma UnheardStep(c: Timing, s: Tunnel, clock: nat, e: Event, t1: nat, t: nat)
    requires Good(s, clock) && Timely(c, clock, e) && !s.state.Expired? && !Next(c, s, clock, e).state.Expired?
    requires Unheard(s, t1, t) && !Takes(s, e) && (e.TimerTick? ==> e.room)
    ensures Unheard(Next(c, s, clock, e), t1, t)
  {
    StepTraffic(c, s, clock, e);
    StepMarks(c, s, clock, e);
    RegisterStep(c, s, clock, e);
  }

  lemma {:induction false} UnheardAlong(c: Timing, run: seq<Moment>, events: seq<Event>, m: nat, n: nat, i: nat)
    requires Span(c, run, events, m, n) && m < i <= n
    requires SendsData(run[m].tunnel, events[m]) && run[m].tunnel.timers[RECEIVED] < run[m].tunnel.Now()
    requires forall k :: m < k < n ==> !Takes(run[k].tunnel, events[k])
    ensures Unheard(run[i].tunnel, run[m].tunnel.timers[RECEIVED], run[m].tunnel.Now())
    decreases i
  {
    var s, clock, e := run[i - 1].tunnel, run[i - 1].clock, events[i - 1];
    RunIsGood(c, run, events, i - 1);
    assert !run[i].tunnel.state.Expired?;
    if i == m + 1 {
      StepTraffic(c, s, clock, e);
      StepMarks(c, s, clock, e);
    } else {
      UnheardAlong(c, run, events, m, n, i - 1);
      UnheardStep(c, s, clock, e, run[m].tunnel.timers[RECEIVED], run[m].tunnel.Now());
    }
  }

  /** The longest a tunnel waits for an answer. */
  function PatienceHi(c: Timing): nat { (c.keepaliveTimeout.HiOr(10) + c.rekeyTimeout.HiOr(5)) * 1000 + JITTER_MAX }

  /**
   A silent peer is called again. Over every run: if data went out after the
   last packet that came in, and none came in since, then a tick outside a
   handshake the longest patience after that packet starts one.
   */
  lemma CallsAgain(c: Timing, run: seq<Moment>, events: seq<Event>, m: nat, n: nat)
    requires Span(c, run, events, m, n) && c.SumsFit()
    requires SendsData(run[m].tunnel, events[m]) && run[m].tunnel.timers[RECEIVED] < run[m].tunnel.Now()
    requires forall k :: m < k < n ==> !Takes(run[k].tunnel, events[k])
    requires events[n].TimerTick? && run[n].tunnel.state.Idle?
    requires events[n].readings.now >= run[m].tunnel.timers[RECEIVED] + PatienceHi(c)
    requires events[n].readings.now < run[n].tunnel.timers[ESTABLISHED] + c.Reject() * 3
    ensures StartsAt(c, run, events, n)
  {
    RunIsGood(c, run, events, n);
    UnheardAlong(c, run, events, m, n, n);
    SumsFitExactly(c);
    var s, clock, e := run[n].tunnel, run[n].clock, events[n];
    TickStarts(c, s, clock, e.readings, e.picks, true);
  }

  // ---- The session in use ----

  /** Something the peer sealed with the session of slot `k` is opened: data, or the response that completes it. */
  predicate Confirms(s: Tunnel, e: Event, k: nat)
    requires s.Sized()
  {
    || (e.TakeData? && e.opens && e.index % N_SESSIONS == k && s.sessions[k].Some?)
    || (e.TakeResponse? && Establishes(s, e) && e.index % N_SESSIONS == k)
  }

  /** The peer has used the session in slot `k`. */
  ghost predicate Confirmed(run: seq<Moment>, events: seq<Event>, i: nat, k: nat)
    requires i <= |events| && |run| == |events| + 1 && k < N_SESSIONS
    requires forall j :: 0 <= j < |run| ==> run[j].tunnel.Sized()
    decreases i
  {
    && i > 0
    && var e := events[i - 1];
       || Confirms(run[i - 1].tunnel, e, k)
       || (Confirmed(run, events, i - 1, k) && !(e.AnswerInit? && e.index % N_SESSIONS == k))
  }

  /** If slot `k` is live, so is the one in use, and it is no older. */
  predicate NoneNewer(s: Tunnel, k: nat)
    requires s.Sized() && k < N_SESSIONS
  {
    var u := s.current % N_SESSIONS;
    s.sessions[k].Some? ==> s.sessions[u].Some? && s.sessionTimers[k] <= s.sessionTimers[u]
  }

  lemma TickUse(c: Timing, s: Tunnel, clock: nat, r: Readings, p: Picks, room: bool, k: nat)
    requires Good(s, clock) && clock <= r.now && r.Ordered() && k < N_SESSIONS && NoneNewer(s, k)
    ensures var o := Tick(c, s, r, p, room).tunnel; o.Sized() && NoneNewer(o, k)
  {
    TickKeeps(c, s, clock, r, p, room);
    EnteredKeeps(s, clock, r.now, c.Reject());
    if !s.state.Expired? && !Tick(c, s, r, p, room).tunnel.state.Expired? {
      LiveUse(c, s, clock, r.now, k);
      TickMarks(c, s, clock, r, p, room);
      ProceedKeeps(c, Live(c, s, r.now), r, p, room);
    }
  }

  /** Expiry takes the older session first. */
  lemma LiveUse(c: Timing, s: Tunnel, clock: nat, now: nat, k: nat)
    requires Good(s, clock) && clock <= now && k < N_SESSIONS && NoneNewer(s, k)
    ensures NoneNewer(Live(c, s, now), k) && Good(Live(c, s, now), now) && Live(c, s, now).Now() == now
    ensures Live(c, s, now).current == s.current
  {
    LiveIs(c, s, clock, now);
  }

  lemma SendUse(s: Tunnel, clock: nat, empty: bool, room: bool, roll: Roll, at: nat, k: nat)
    requires Good(s, clock) && clock <= at && k < N_SESSIONS && NoneNewer(s, k)
    ensures var o := Encapsulate(s, empty, room, roll, at).tunnel; o.Sized() && NoneNewer(o, k)
  {
    EncapsulateKeeps(s, clock, empty, room, roll, at);
  }

  lemma RespondedUse(s: Tunnel, clock: nat, index: nat, authentic: bool, at: nat, k: nat)
    requires Good(s, clock) && clock <= at && k < N_SESSIONS
    requires NoneNewer(s, k) || Confirms(s, TakeResponse(index, authentic, at), k)
    ensures var o := Responded(s, index, authentic, at); o.Sized() && NoneNewer(o, k)
  {
    CompletedUse(s.(state := Idle), at, index, k);
    CompletedUse(s.(previous := Idle), at, index, k);
  }

  /** A completed session is the newest there is, and in use. */
  lemma CompletedUse(s: Tunnel, at: nat, index: nat, k: nat)
    requires s.Sized() && Ring(s.sessionTimers, s.sessions, s.Now(), at) && k < N_SESSIONS
    ensures var o := Completed(s, index, at); o.Sized() && NoneNewer(o, k)
  {
    var a := s.(sessions := s.sessions[index % N_SESSIONS := Some(Session(index, at))]);
    var b := Established(Ticked(a, RECEIVED), true, index % N_SESSIONS);
    assert b.sessions == a.sessions && b.sessionTimers == s.sessionTimers[index % N_SESSIONS := s.Now()];
    assert Completed(s, index, at) == Switched(b, index);
  }

  lemma DataUse(s: Tunnel, index: nat, opens: bool, carries: bool, k: nat)
    requires s.Sized() && k < N_SESSIONS
    requires NoneNewer(s, k) || Confirms(s, TakeData(index, opens, carries), k)
    ensures var o := DataArrived(s, index, opens, carries); o.Sized() && NoneNewer(o, k)
  {
    var a := Switched(s, index);
    assert SameRing(s, a);
  }

  lemma UseStep(c: Timing, s: Tunnel, clock: nat, e: Event, k: nat)
    requires Good(s, clock) && Timely(c, clock, e) && k < N_SESSIONS
    requires Confirms(s, e, k) || (NoneNewer(s, k) && !(e.AnswerInit? && e.index % N_SESSIONS == k))
    ensures var o := Next(c, s, clock, e); o.Sized() && NoneNewer(o, k)
  {
    match e
    case TimerTick(r, p, room) => TickUse(c, s, clock, r, p, room, k);
    case SendPacket(empty, room, roll, at) => SendUse(s, clock, empty, room, roll, at, k);
    case TakeResponse(index, authentic, at) => RespondedUse(s, clock, index, authentic, at, k);
    case TakeData(index, opens, carries) => DataUse(s, index, opens, carries, k);
    case _ =>
  }

  lemma RunSized(c: Timing, run: seq<Moment>, events: seq<Event>)
    requires IsRun(c, run, events)
    ensures forall j :: 0 <= j < |run| ==> run[j].tunnel.Sized()
  {
    forall j | 0 <= j < |run| ensures run[j].tunnel.Sized() {
      RunIsGood(c, run, events, j);
    }
  }

  /**
   Over every run, packets go out on the newest session the peer is known to
   hold: while any session it has used is live, the one in use is live, and
   established no earlier.
   */
  lemma {:induction false} UsesNewest(c: Timing, run: seq<Moment>, events: seq<Event>, i: nat, k: nat)
    requires IsRun(c, run, events) && i <= |events| && k < N_SESSIONS
    ensures forall j :: 0 <= j < |run| ==> run[j].tunnel.Sized()
    ensures Confirmed(run, events, i, k) ==> NoneNewer(run[i].tunnel, k)
    decreases i
  {
    RunSized(c, run, events);
    if Confirmed(run, events, i, k) {
      RunIsGood(c, run, events, i - 1);
      UsesNewest(c, run, events, i - 1, k);
      UseStep(c, run[i - 1].tunnel, run[i - 1].clock, events[i - 1], k);
    }
  }
}
