/**
 The rate limiter's MAC checks and the cookie exchange that lets a peer prove
 its address while the limiter is under load.
 */
module CookieExchange {
  import opened Options
  import opened SymbolicCrypto
  import opened Handshake

  const COOKIE_REFRESH: nat := 128
  const RESET_PERIOD: nat := 1
  const COOKIE_REPLY_SZ: nat := 64

  /** Clock readings are in nanoseconds. */
  const SECOND: nat := 1_000_000_000

  /** Whole seconds from one reading to another; none if the clock seems to go back. */
  function SecondsSince(start: nat, now: nat): nat {
    if start <= now then (now - start) / SECOND else 0
  }

  datatype CookieReply = CookieReply(msgType: nat, receiver: nat, nonce: Term, encCookie: Term)

  /** The part of a handshake message the limiter looks at. */
  datatype Message = Message(sender: nat, body: Term, mac1: Term, mac2: Term)

  function OfInit(p: InitPacket): Message { Message(p.sender, InitBody(p), p.mac1, p.mac2) }

  function OfResponse(p: ResponsePacket): Message { Message(p.sender, ResponseBody(p), p.mac1, p.mac2) }

  datatype Verdict = Pass | InvalidMac | UnderLoad | BufferTooSmall | Challenge(reply: CookieReply)

  // ---- Addresses ----

  type Octet = n: nat | n < 256

  type Octets4 = s: seq<Octet> | |s| == 4 witness [0, 0, 0, 0]

  type Octets16 = s: seq<Octet> | |s| == 16 witness [0, 0, 0, 0, 0, 0, 0, 0, 0, 0, 0, 0, 0, 0, 0, 0]

  datatype Address = V4(ip4: Octets4) | V6(ip6: Octets16)

  const TWELVE_ZEROS: seq<Octet> := [0, 0, 0, 0, 0, 0, 0, 0, 0, 0, 0, 0]

  /** The sixteen bytes a cookie is made for: an IPv4 address fills the first four. */
  function Padded(a: Address): seq<Octet> {
    match a
    case V4(ip) => ip + TWELVE_ZEROS
    case V6(ip) => ip
  }

  /** The IPv6 address whose bytes are those of a padded IPv4 one. */
  predicate Twins(a: Address, b: Address) {
    a.V4? && b.V6? && b.ip6 == a.ip4 + TWELVE_ZEROS
  }

  /** Only twins share their padded bytes. */
  lemma SamePadding(a: Address, b: Address)
    ensures Padded(a) == Padded(b) <==> a == b || Twins(a, b) || Twins(b, a)
  {
    if a.V4? && b.V4? && Padded(a) == Padded(b) {
      assert a.ip4 == Padded(a)[..4] && b.ip4 == Padded(b)[..4];
    }
  }

  // ---- The limiter ----

  /** `secret` and `nonceKey` name the limiter's random keys, `public` is the key it guards. */
  datatype Limiter = Limiter(
    secret: nat, nonceKey: nat, startTime: nat, public: Term, limit: nat, count: nat, nonceCtr: nat, lastReset: nat) {

    /** The 128-second epoch, from the limiter's creation on. */
    function Epoch(now: nat): nat { SecondsSince(startTime, now) / COOKIE_REFRESH }

    function Cookie(addr: Address, now: nat): Term {
      Mac(Secret(secret), Pair(Const(Epoch(now)), Octets(Padded(addr))))
    }

    function Reply(m: Message, addr: Address, now: nat, msgType: nat): CookieReply {
      var nonce := Mac(Secret(nonceKey), Const(nonceCtr));
      CookieReply(msgType, m.sender, nonce, Sealed(CookieKey(public, nonce), Cookie(addr, now), m.mac1))
    }

    predicate HasMac1(m: Message) {
      m.mac1 == Mac(Hash(LABEL_MAC1, public), m.body)
    }

    predicate HasMac2(m: Message, addr: Address, now: nat) {
      m.mac2 == Mac(Cookie(addr, now), Pair(m.body, m.mac1))
    }

    /** `dst` is the size of the buffer a challenge is written to. */
    function Verify(m: Message, addr: Option<Address>, now: nat, dst: nat, msgType: nat, disableCookies: bool)
      : (Limiter, Verdict)
    {
      if !HasMac1(m) then (this, InvalidMac) else
      if disableCookies then (this, Pass) else
      var counted := this.(count := count + 1);
      if count < limit then (counted, Pass) else
      if addr.None? then (counted, UnderLoad) else
      if HasMac2(m, addr.value, now) then (counted, Pass) else
      if dst < COOKIE_REPLY_SZ then (counted, BufferTooSmall) else
      (counted.(nonceCtr := nonceCtr + 1), Challenge(Reply(m, addr.value, now, msgType)))
    }
  }

  /** The XAEAD key of a cookie reply: anybody who knows the guarded public key can derive it. */
  function CookieKey(public: Term, nonce: Term): Term {
    Pair(Hash(LABEL_COOKIE, public), nonce)
  }

  class RateLimiter {
    const secret: nat
    const nonceKey: nat
    const startTime: nat
    const public: Term
    const limit: nat
    var count: nat
    var nonceCtr: nat
    var lastReset: nat

    function View(): Limiter
      reads this
    {
      Limiter(secret, nonceKey, startTime, public, limit, count, nonceCtr, lastReset)
    }

    constructor (secret: nat, nonceKey: nat, public: Term, limit: nat, started: nat, now: nat)
      ensures View() == Limiter(secret, nonceKey, started, public, limit, 0, 0, now)
    {
      this.secret, this.nonceKey, this.startTime, this.public, this.limit := secret, nonceKey, started, public, limit;
      count, nonceCtr, lastReset := 0, 0, now;
    }

    method ResetCount(now: nat)
      modifies this`count, this`lastReset
      ensures View() == if now >= old(lastReset) + RESET_PERIOD * SECOND
                        then old(View()).(count := 0, lastReset := now) else old(View())
    {
      if SecondsSince(lastReset, now) >= RESET_PERIOD {
        count := 0;
        lastReset := now;
      }
    }

    method IsUnderLoad() returns (loaded: bool)
      modifies this`count
      ensures loaded == (old(count) >= limit) && count == old(count) + 1
    {
      loaded := count >= limit;
      count := count + 1;
    }

    method CurrentCookie(addr: Address, now: nat) returns (cookie: Term)
      ensures cookie == View().Cookie(addr, now)
    {
      var bytes := new nat[16](i => 0);
      match addr {
        case V4(ip) => forall i | 0 <= i < 4 { bytes[i] := ip[i]; }
        case V6(ip) => forall i | 0 <= i < 16 { bytes[i] := ip[i]; }
      }
      assert bytes[..] == Padded(addr);
      cookie := Mac(Secret(secret), Pair(Const(SecondsSince(startTime, now) / COOKIE_REFRESH), Octets(bytes[..])));
    }

    method VerifyPacket(m: Message, addr: Option<Address>, now: nat, dst: nat, msgType: nat, disableCookies: bool)
      returns (r: Verdict)
      modifies this`count, this`nonceCtr
      ensures (View(), r) == old(View()).Verify(m, addr, now, dst, msgType, disableCookies)
    {
      var computed := Mac(Hash(LABEL_MAC1, public), m.body);
      if computed != m.mac1 {
        return InvalidMac;
      }
      if !disableCookies {
        var loaded := IsUnderLoad();
        if loaded {
          if addr.None? {
            return UnderLoad;
          }
          var cookie := CurrentCookie(addr.value, now);
          if m.mac2 != Mac(cookie, Pair(m.body, m.mac1)) {
            if dst < COOKIE_REPLY_SZ {
              return BufferTooSmall;
            }
            var nonce := Mac(Secret(nonceKey), Const(nonceCtr));
            nonceCtr := nonceCtr + 1;
            return Challenge(CookieReply(msgType, m.sender, nonce, Sealed(CookieKey(public, nonce), cookie, m.mac1)));
          }
        }
      }
      r := Pass;
    }
  }

  function ReceiveCookieReply(hs: Hs, p: CookieReply): (Hs, Result<()>) {
    if hs.cookies.lastMac1.None? then (hs, Err(UnexpectedPacket)) else
    if p.receiver != hs.cookies.index then (hs, Err(WrongIndex)) else
    var cookie := Open(CookieKey(hs.params.peerStatic, p.nonce), p.encCookie, hs.cookies.lastMac1.value);
    if cookie.None? then (hs, Err(InvalidAeadTag)) else
    (hs.(cookies := hs.cookies.(writeCookie := Some(cookie.value))), Ok(()))
  }

  // ---- The exchange ----

  /** A genuine challenge opens at the initiator exactly while the challenged message is the last it sent. */
  lemma ChallengeOpensForLastMessage(hs: Hs, l: Limiter, m: Message, addr: Address, now: nat, msgType: nat)
    requires l.public == hs.params.peerStatic
    ensures var (hs', r) := ReceiveCookieReply(hs, l.Reply(m, addr, now, msgType));
      && (r.Ok? <==> hs.cookies.lastMac1 == Some(m.mac1) && hs.cookies.index == m.sender)
      && (r.Ok? ==> hs' == hs.(cookies := hs.cookies.(writeCookie := Some(l.Cookie(addr, now)))))
  {
  }

  /**
   Of two initiations sent one after the other only the second can still be
   challenged: the first one's challenge arrives for nothing.
   */
  lemma OnlyLastIsChallenged(hs: Hs, l: Limiter, addr: Address, now: nat, msgType: nat,
      e1: nat, e2: nat, stamp1: Tai64N, stamp2: Tai64N, type1: nat, type2: nat)
    requires l.public == hs.params.peerStatic && e1 != e2
    ensures var (hs1, p1) := FormatInitiation(hs, e1, stamp1, type1);
      var (hs2, p2) := FormatInitiation(hs1, e2, stamp2, type2);
      && ReceiveCookieReply(hs2, l.Reply(OfInit(p1), addr, now, msgType)).1.Err?
      && ReceiveCookieReply(hs2, l.Reply(OfInit(p2), addr, now, msgType)).1.Ok?
  {
    var (hs1, p1) := FormatInitiation(hs, e1, stamp1, type1);
    var (hs2, p2) := FormatInitiation(hs1, e2, stamp2, type2);
    assert InitBody(p1) != InitBody(p2);
    ChallengeOpensForLastMessage(hs2, l, OfInit(p1), addr, now, msgType);
    ChallengeOpensForLastMessage(hs2, l, OfInit(p2), addr, now, msgType);
  }

  /** A message as an end with these cookies sends it to the owner of `public`. */
  predicate SentWith(m: Message, cookies: Cookies, public: Term) {
    m.mac1 == Mac(Hash(LABEL_MAC1, public), m.body) && m.mac2 == Mac2(cookies, m.body, m.mac1)
  }

  /** The same limiter later: its count, nonces and reset time have moved on. */
  predicate SameLimiter(l: Limiter, l': Limiter) {
    l'.secret == l.secret && l'.public == l.public && l'.startTime == l.startTime
  }

  /** The limiter is loaded, and the message proves nothing yet. */
  predicate Challenges(l: Limiter, m: Message, addr: Address, now: nat) {
    l.count >= l.limit && l.HasMac1(m) && !l.HasMac2(m, addr, now)
  }

  /**
   What an end holding a cookie sends passes the same limiter, however loaded,
   exactly from an address with the padded bytes of the challenged one in the
   same 128-second epoch.
   */
  lemma HeldCookiePasses(l: Limiter, addr: Address, now: nat, l': Limiter, m: Message, cookies: Cookies,
      addr': Address, now': nat, dst': nat, msgType: nat)
    requires SameLimiter(l, l') && l'.count >= l'.limit
    requires cookies.writeCookie == Some(l.Cookie(addr, now)) && SentWith(m, cookies, l.public)
    ensures l'.Verify(m, Some(addr'), now', dst', msgType, false).1 == Pass
      <==> Padded(addr') == Padded(addr) && l.Epoch(now') == l.Epoch(now)
  {
  }

  /** What an end without a cookie sends never passes a loaded limiter: it is challenged if there is room. */
  lemma NoCookieIsChallenged(l: Limiter, m: Message, cookies: Cookies, addr: Address, now: nat, dst: nat, msgType: nat)
    requires l.count >= l.limit && cookies.writeCookie.None? && SentWith(m, cookies, l.public)
    ensures var v := l.Verify(m, Some(addr), now, dst, msgType, false).1;
      v != Pass && (v.Challenge? <==> dst >= COOKIE_REPLY_SZ)
  {
  }

  /**
   So a cookie is good at one other address besides the challenged one, if
   that is an IPv4 address: 102:304:: passes on the challenge to 1.2.3.4.
   */
  lemma TwinSharesCookie(l: Limiter, ip: Octets4, now: nat, addr: Address)
    ensures l.Cookie(addr, now) == l.Cookie(V4(ip), now) <==> addr == V4(ip) || addr == V6(ip + TWELVE_ZEROS)
  {
    SamePadding(V4(ip), addr);
  }

  // ---- How much gets through without a cookie ----

  datatype Arrival = Arrival(m: Message, addr: Option<Address>, now: nat, dst: nat, msgType: nat)

  function After(l: Limiter, arrivals: seq<Arrival>): Limiter {
    if arrivals == [] then l else
    var before := After(l, arrivals[..|arrivals| - 1]);
    var a := arrivals[|arrivals| - 1];
    before.Verify(a.m, a.addr, a.now, a.dst, a.msgType, false).0
  }

  predicate PassedOnCredit(l: Limiter, a: Arrival) {
    && l.Verify(a.m, a.addr, a.now, a.dst, a.msgType, false).1 == Pass
    && !(a.addr.Some? && l.HasMac2(a.m, a.addr.value, a.now))
  }

  /** How many of the arrivals passed without proving their address. */
  function Credit(l: Limiter, arrivals: seq<Arrival>): nat {
    if arrivals == [] then 0 else
    var front, a := arrivals[..|arrivals| - 1], arrivals[|arrivals| - 1];
    Credit(l, front) + if PassedOnCredit(After(l, front), a) then 1 else 0
  }

  /** Between two resets, at most `limit` handshake messages pass without a valid cookie. */
  lemma {:induction false} CreditIsBounded(l: Limiter, arrivals: seq<Arrival>)
    ensures After(l, arrivals).limit == l.limit
    ensures l.count + Credit(l, arrivals) <= After(l, arrivals).count
    ensures Credit(l, arrivals) <= if l.count < l.limit then l.limit - l.count else 0
  {
    if arrivals != [] {
      CreditIsBounded(l, arrivals[..|arrivals| - 1]);
    }
  }

  // ---- What a bad mac1 comes to ----

  /** The arrivals whose mac1 is the MAC under the guarded key, in order. */
  function Genuine(l: Limiter, arrivals: seq<Arrival>): (r: seq<Arrival>)
    ensures forall i :: 0 <= i < |r| ==> l.HasMac1(r[i].m)
  {
    if arrivals == [] then [] else
    var front, a := Genuine(l, arrivals[..|arrivals| - 1]), arrivals[|arrivals| - 1];
    if l.HasMac1(a.m) then front + [a] else front
  }

  lemma {:induction false} AfterKeepsKey(l: Limiter, arrivals: seq<Arrival>)
    ensures var l' := After(l, arrivals);
      l'.public == l.public && l'.limit == l.limit && l'.secret == l.secret && l'.nonceKey == l.nonceKey
  {
    if arrivals != [] {
      AfterKeepsKey(l, arrivals[..|arrivals| - 1]);
    }
  }

  /**
   Arrivals with a bad mac1, however many and wherever among the others, leave
   no trace: the limiter, and the credit used up, are what the genuine arrivals
   alone make of them. And each genuine one has been counted.
   */
  lemma {:induction false} BadMacsLeaveNoTrace(l: Limiter, arrivals: seq<Arrival>)
    ensures After(l, arrivals) == After(l, Genuine(l, arrivals))
    ensures Credit(l, arrivals) == Credit(l, Genuine(l, arrivals))
    ensures After(l, arrivals).count == l.count + |Genuine(l, arrivals)|
  {
    if arrivals != [] {
      var front, a := arrivals[..|arrivals| - 1], arrivals[|arrivals| - 1];
      BadMacsLeaveNoTrace(l, front);
      AfterKeepsKey(l, front);
      if l.HasMac1(a.m) {
        var g := Genuine(l, front) + [a];
        assert g[..|g| - 1] == Genuine(l, front);
      }
    }
  }

  /**
   The verdict on an arrival, whatever came before it: nothing gets past a bad
   mac1. A genuine message passes exactly while fewer than the limit have been
   counted, or from an address it proves; otherwise it is challenged, or
   refused where there is no address or no room.
   */
  lemma VerdictExactly(l: Limiter, before: seq<Arrival>, a: Arrival)
    ensures var v := After(l, before).Verify(a.m, a.addr, a.now, a.dst, a.msgType, false).1;
      var credit := l.count + |Genuine(l, before)| < l.limit;
      var proved := a.addr.Some? && l.HasMac2(a.m, a.addr.value, a.now);
      && (v == InvalidMac <==> !l.HasMac1(a.m))
      && (v == Pass <==> l.HasMac1(a.m) && (credit || proved))
      && (v.Challenge? <==> l.HasMac1(a.m) && !credit && !proved && a.addr.Some? && a.dst >= COOKIE_REPLY_SZ)
  {
    BadMacsLeaveNoTrace(l, before);
    AfterKeepsKey(l, before);
    SameCookies(l, before);
  }

  lemma {:induction false} SameCookies(l: Limiter, arrivals: seq<Arrival>)
    ensures After(l, arrivals).startTime == l.startTime
  {
    if arrivals != [] {
      SameCookies(l, arrivals[..|arrivals| - 1]);
    }
  }

  /** With cookies disabled a genuine message always passes, a bad one never, and nothing is counted. */
  lemma DisabledCountsNothing(l: Limiter, m: Message, addr: Option<Address>, now: nat, dst: nat, msgType: nat)
    ensures l.Verify(m, addr, now, dst, msgType, true) == (l, if l.HasMac1(m) then Pass else InvalidMac)
  {
  }

  // ---- Nonces of challenges ----

  lemma {:induction false} NonceCounterGrows(l: Limiter, arrivals: seq<Arrival>, i: nat)
    requires i <= |arrivals|
    ensures After(l, arrivals[..i]).nonceCtr <= After(l, arrivals).nonceCtr
    decreases |arrivals|
  {
    if i < |arrivals| {
      var front := arrivals[..|arrivals| - 1];
      assert front[..i] == arrivals[..i];
      NonceCounterGrows(l, front, i);
    } else {
      assert arrivals[..i] == arrivals;
    }
  }

  ghost function VerdictOn(l: Limiter, arrivals: seq<Arrival>, i: nat): Verdict
    requires i < |arrivals|
  {
    var a := arrivals[i];
    After(l, arrivals[..i]).Verify(a.m, a.addr, a.now, a.dst, a.msgType, false).1
  }

  /** No two challenges of a limiter use the same nonce. */
  lemma NoncesDiffer(l: Limiter, arrivals: seq<Arrival>, i: nat, j: nat)
    requires i < j < |arrivals| && VerdictOn(l, arrivals, i).Challenge? && VerdictOn(l, arrivals, j).Challenge?
    ensures VerdictOn(l, arrivals, i).reply.nonce != VerdictOn(l, arrivals, j).reply.nonce
  {
    var upto := arrivals[..i + 1];
    assert upto[..|upto| - 1] == arrivals[..i] && upto[|upto| - 1] == arrivals[i];
    assert arrivals[..j][..i + 1] == upto;
    NonceCounterGrows(l, arrivals[..j], i + 1);
  }
}
