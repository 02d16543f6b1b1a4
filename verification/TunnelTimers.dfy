/**
 The tunnel object: timers, session ring and handshake phase updated in
 place. Each method is the step of the same name on the tunnel's value.
 */
module TunnelTimers {
  import opened Options
  import opened Timers

  class Tunn {
    const timing: Timing
    const timers: array<nat>
    const sessionTimers: array<nat>
    const sessions: array<Option<Session>>
    var state: Phase
    var previous: Phase
    var current: nat
    var isInitiator: bool
    var wantKeepalive: bool
    var wantHandshake: bool
    var hasCookie: bool
    var rekeyTimeout: nat
    var deadline: nat
    var persistentNext: nat

    ghost function Value(): Tunnel
      reads this, timers, sessionTimers, sessions
    {
      Tunnel(timers[..], sessionTimers[..], sessions[..], state, previous, current,
             isInitiator, wantKeepalive, wantHandshake, hasCookie, rekeyTimeout, deadline, persistentNext)
    }

    ghost predicate Valid() {
      && timers.Length == TOP && sessionTimers.Length == N_SESSIONS && sessions.Length == N_SESSIONS
      && timers != sessionTimers
    }

    constructor (timing: Timing, persistentNext: nat)
      ensures Valid() && Value() == Fresh(persistentNext) && this.timing == timing
      ensures fresh(timers) && fresh(sessionTimers) && fresh(sessions)
    {
      this.timing := timing;
      timers := new nat[TOP](i => 0);
      sessionTimers := new nat[N_SESSIONS](i => 0);
      sessions := new Option<Session>[N_SESSIONS](i => None);
      state, previous, current := Idle, Idle, 0;
      isInitiator, wantKeepalive, wantHandshake, hasCookie := false, false, false, false;
      rekeyTimeout, deadline := 5_000, 90_000;
      this.persistentNext := persistentNext;
    }

    method TimerTick(name: nat)
      requires Valid() && name < TOP
      modifies this`wantKeepalive, this`wantHandshake, timers
      ensures Value() == Ticked(old(Value()), name)
    {
      if name == RECEIVED {
        wantKeepalive := true;
        wantHandshake := false;
      } else if name == SENT {
        wantHandshake := true;
        wantKeepalive := false;
      }
      timers[name] := timers[CURRENT];
    }

    method SessionEstablished(initiator: bool, index: nat)
      requires Valid()
      modifies this`wantKeepalive, this`wantHandshake, this`isInitiator, timers, sessionTimers
      ensures Value() == Established(old(Value()), initiator, index)
    {
      TimerTick(ESTABLISHED);
      sessionTimers[index % N_SESSIONS] := timers[CURRENT];
      isInitiator := initiator;
    }

    method ClearTimers(now: nat)
      requires Valid()
      modifies this`wantKeepalive, this`wantHandshake, timers
      ensures Value() == TimersCleared(old(Value()), now)
    {
      for i := 0 to TOP
        invariant forall j :: 0 <= j < i ==> timers[j] == now
        invariant unchanged(this)
      {
        timers[i] := now;
      }
      wantHandshake := false;
      wantKeepalive := false;
    }

    method ClearAll(now: nat)
      requires Valid()
      modifies this`wantKeepalive, this`wantHandshake, timers, sessions
      ensures Value() == ClearedAll(old(Value()), now)
    {
      for i := 0 to N_SESSIONS
        invariant forall j :: 0 <= j < i ==> sessions[j] == None
        invariant unchanged(this) && unchanged(timers)
      {
        sessions[i] := None;
      }
      ClearTimers(now);
    }

    method Expire(now: nat)
      requires Valid()
      modifies this, timers, sessions
      ensures Value() == GivenUp(old(Value()), now)
    {
      previous := Expired;
      state := Expired;
      ClearAll(now);
    }

    /** The slot loop: a slot too old is emptied and restarted. */
    method UpdateSessionTimers(now: nat)
      requires Valid() && forall i :: 0 <= i < N_SESSIONS ==> sessionTimers[i] <= now
      modifies sessionTimers, sessions
      ensures Value() == SessionsExpired(old(Value()), now, timing.Reject())
    {
      var reject := timing.Reject();
      ghost var slots, live := sessionTimers[..], sessions[..];
      for i := 0 to N_SESSIONS
        invariant forall j :: 0 <= j < N_SESSIONS ==>
          sessionTimers[j] == if j < i && TooOld(slots[j], now, reject) then now else slots[j]
        invariant forall j :: 0 <= j < N_SESSIONS ==>
          sessions[j] == if j < i && TooOld(slots[j], now, reject) then None else live[j]
      {
        if now - sessionTimers[i] > reject {
          sessions[i] := None;
          sessionTimers[i] := now;
        }
      }
    }

    method FormatHandshakeInitiation(force: bool, room: bool, roll: Roll, now: nat) returns (action: Action)
      requires Valid()
      modifies this, timers
      ensures Effect(Value(), action) == Initiate(old(Value()), force, room, roll, now)
    {
      if state.InitSent? && !force {
        return Done;
      }
      if !room {
        return NoRoom;
      }
      ghost var s := Value();
      if state.Expired? {
        ClearTimers(now);
      }
      assert Value() == Prepared(s, now);
      var starting := !state.InitSent?;
      rekeyTimeout := roll.rekeyTimeout * 1000 + roll.jitter;
      if starting {
        deadline := roll.rekeyTimeout * roll.attempts * 1000;
      }
      previous := state;
      state := InitSent(roll.index, now);
      assert Value() == Rolled(Prepared(s, now), roll, now);
      Dispatch(starting);
      action := Initiated;
    }

    method Dispatch(starting: bool)
      requires Valid()
      modifies this`wantKeepalive, this`wantHandshake, timers
      ensures Value() == Dispatched(old(Value()), starting)
    {
      if starting {
        TimerTick(STARTED);
      }
      TimerTick(SENT);
    }

    method EncapsulatePacket(empty: bool, room: bool, roll: Roll, now: nat) returns (action: Action)
      requires Valid()
      modifies this, timers
      ensures Effect(Value(), action) == Encapsulate(old(Value()), empty, room, roll, now)
    {
      if sessions[current % N_SESSIONS].Some? {
        if !room {
          return NoRoom;
        }
        TimerTick(SENT);
        if !empty {
          TimerTick(DATA_SENT);
        }
        return SentPacket;
      }
      action := FormatHandshakeInitiation(false, room, roll, now);
    }

    method RenewPersistent(p: Picks) returns (due: bool)
      requires Valid() && timers[PERSISTENT] <= timers[CURRENT]
      modifies this`wantKeepalive, this`wantHandshake, this`persistentNext, timers
      ensures due == PersistentDue(timing, old(Value()))
      ensures Value() == if due then PersistentRenewed(timing, old(Value()), p) else old(Value())
    {
      var time := timers[CURRENT];
      if !timing.persistent.IsZero() {
        due := time - timers[PERSISTENT] >= persistentNext;
        if due {
          persistentNext := p.persistent * 1000;
          TimerTick(PERSISTENT);
        }
      } else {
        due := timing.persistentFixed > 0 && time - timers[PERSISTENT] >= timing.persistentFixed * 1000;
        if due {
          TimerTick(PERSISTENT);
        }
      }
    }

    /** The keepalive checks of a tick. */
    method SendKeepalive(p: Picks, room: bool, now: nat) returns (action: Action)
      requires Valid() && timers[SENT] <= timers[CURRENT] && timers[PERSISTENT] <= timers[CURRENT]
      modifies this, timers
      ensures Effect(Value(), action) == Keepalive(timing, old(Value()), p, room, now)
    {
      var required := false;
      var time := timers[CURRENT];
      if timers[DATA_RECEIVED] > timers[SENT] && time - timers[SENT] >= p.keepaliveTimeout * 1000 {
        required := wantKeepalive;
        wantKeepalive := false;
      }
      var due := RenewPersistent(p);
      if required || due {
        action := EncapsulatePacket(true, room, p.roll, now);
      } else {
        action := Done;
      }
    }

    /** The checks of a tick outside a handshake of our own. */
    method QuietTick(p: Picks, room: bool, now: nat) returns (action: Action)
      requires Valid() && forall i :: 0 <= i < TOP ==> timers[i] <= timers[CURRENT]
      modifies this, timers
      ensures Effect(Value(), action) == Quiet(timing, old(Value()), p, room, now)
    {
      var time, established := timers[CURRENT], timers[ESTABLISHED];
      var required := false;
      if isInitiator {
        if established < timers[DATA_SENT] && time - established >= p.rekeyAfter * 1000 {
          required := true;
        }
        if established < timers[DATA_RECEIVED] && time - established >= p.ReceiverRekeyAfter(timing) {
          required := true;
        }
      }
      if timers[DATA_SENT] > timers[RECEIVED] && time - timers[RECEIVED] >= p.NewHandshakeAfter(timing) {
        required := required || wantHandshake;
        wantHandshake := false;
      }
      if required {
        action := FormatHandshakeInitiation(true, room, p.roll, now);
      } else {
        action := SendKeepalive(p, room, now);
      }
    }

    /** The periodic call. A sound tunnel stays sound, and no session outlives the rejection time. */
    method UpdateTimers(r: Readings, p: Picks, room: bool, ghost clock: nat) returns (action: Action)
      requires Valid() && Good(Value(), clock) && clock <= r.now && r.Ordered()
      modifies this, timers, sessionTimers, sessions
      ensures Effect(Value(), action) == Tick(timing, old(Value()), r, p, room)
      ensures Good(Value(), r.later) && Young(sessions[..], r.now, timing.Reject())
    {
      TickKeeps(timing, Value(), clock, r, p, room);
      ghost var s := Value();
      timers[CURRENT] := r.now;
      UpdateSessionTimers(r.now);
      assert Value() == Entered(s, r.now, timing.Reject());
      if state.Expired? {
        return ConnectionExpired;
      }
      if hasCookie && r.now - timers[COOKIE_RECEIVED] >= COOKIE_EXPIRATION {
        hasCookie := false;
      }
      assert Value() == CookieDropped(Entered(s, r.now, timing.Reject()));
      action := ProceedTick(r, p, room);
    }

    method ProceedTick(r: Readings, p: Picks, room: bool) returns (action: Action)
      requires Valid() && timers[CURRENT] == r.now && forall i :: 0 <= i < TOP ==> timers[i] <= timers[CURRENT]
      modifies this, timers, sessions
      ensures Effect(Value(), action) == Proceed(timing, old(Value()), r, p, room)
    {
      if r.now - timers[ESTABLISHED] >= timing.Reject() * 3 {
        Expire(r.later);
        return ConnectionExpired;
      }
      if state.InitSent? {
        if r.now - timers[STARTED] >= deadline {
          Expire(r.later);
          return ConnectionExpired;
        }
        if Elapsed(r.elapsedAt, state.sentAt) >= rekeyTimeout {
          action := FormatHandshakeInitiation(true, room, p.roll, r.later);
        } else {
          action := Done;
        }
      } else {
        action := QuietTick(p, room, r.later);
      }
    }

    method SetCurrentSession(index: nat)
      requires Valid()
      modifies this`current
      ensures Value() == Switched(old(Value()), index)
    {
      if current == index {
        return;
      }
      if sessions[current % N_SESSIONS].None?
         || sessionTimers[index % N_SESSIONS] >= sessionTimers[current % N_SESSIONS] {
        current := index;
      }
    }

    method HandleHandshakeInit(index: nat, at: nat, ghost clock: nat)
      requires Valid() && Good(Value(), clock) && clock <= at
      modifies this, timers, sessionTimers, sessions
      ensures Value() == Answered(old(Value()), index, at) && Good(Value(), at)
    {
      AnsweredKeeps(Value(), clock, index, at);
      previous := state;
      state := Idle;
      sessions[index % N_SESSIONS] := Some(Session(index, at));
      TimerTick(RECEIVED);
      TimerTick(SENT);
      SessionEstablished(false, index);
    }

    method HandleHandshakeResponse(index: nat, authentic: bool, at: nat, ghost clock: nat)
      requires Valid() && Good(Value(), clock) && clock <= at
      modifies this, timers, sessionTimers, sessions
      ensures Value() == Responded(old(Value()), index, authentic, at) && Good(Value(), at)
    {
      RespondedKeeps(Value(), clock, index, authentic, at);
      var ours := state.InitSent? && state.index == index;
      if !authentic || !(ours || (previous.InitSent? && previous.index == index)) {
        return;
      }
      if ours {
        state := Idle;
      } else {
        previous := Idle;
      }
      Complete(index, at);
    }

    method Complete(index: nat, at: nat)
      requires Valid()
      modifies this, timers, sessionTimers, sessions
      ensures Value() == Completed(old(Value()), index, at)
    {
      var slot := index % N_SESSIONS;
      sessions[slot] := Some(Session(index, at));
      TimerTick(RECEIVED);
      SessionEstablished(true, slot);
      SetCurrentSession(index);
    }

    method HandleData(index: nat, opens: bool, carries: bool, ghost clock: nat)
      requires Valid() && Good(Value(), clock)
      modifies this, timers
      ensures Value() == DataArrived(old(Value()), index, opens, carries) && Good(Value(), clock)
    {
      DataKeeps(Value(), clock, index, opens, carries);
      if sessions[index % N_SESSIONS].None? || !opens {
        return;
      }
      SetCurrentSession(index);
      TimerTick(RECEIVED);
      if carries {
        TimerTick(DATA_RECEIVED);
      }
    }
  }
}
