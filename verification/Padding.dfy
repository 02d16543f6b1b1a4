/**
 How much a tunnel pads: the sliding window of datagram sizes it has carried,
 the content padding and random trailers sized against it, and what two peers
 that pad towards each other do to each other's windows.
 */
module Padding {
  import opened Options

  const DATA_OVERHEAD: nat := 32
  const DEFAULT_WINDOW: nat := 500
  const U32_MAX: nat := 0xFFFF_FFFF

  datatype Range = Range(lo: nat, hi: nat)

  datatype Config = Config(s4: nat, contentPadding: Option<Range>, randomTrailers: bool) {
    /** The size of a datagram for a packet of `len` bytes before any padding. */
    function Unpadded(len: nat): nat { s4 + DATA_OVERHEAD + len }

    predicate Picks(pick: nat) {
      contentPadding.Some? ==> contentPadding.value.lo <= pick <= contentPadding.value.hi
    }

    /** S4 is a 16-bit field, a range two ordered 32-bit ones. */
    predicate Valid() {
      s4 <= 0xFFFF && (contentPadding.Some? ==> contentPadding.value.lo <= contentPadding.value.hi <= U32_MAX)
    }

    /** The most content padding a pick can ask for. */
    function Reach(): nat { if contentPadding.Some? then contentPadding.value.hi else 0 }
  }

  function Min(a: nat, b: nat): nat { if a < b then a else b }

  function Max(a: nat, b: nat): nat { if a < b then b else a }

  function SubOrZero(a: nat, b: nat): nat { if b <= a then a - b else 0 }

  /** The window after a datagram of this size. */
  function Observed(window: nat, size: nat): nat { Max(window, Min(size, U32_MAX)) }

  /** `draw` stands for the generator: any value up to the bound it is asked for. */
  function TrailerLen(size: nat, window: nat, draw: nat): nat {
    if size < window then draw % (window - size) else 0
  }

  function TrailerFor(c: Config, size: nat, dst: nat, window: nat, draw: nat): nat {
    if !c.randomTrailers then 0 else Min(TrailerLen(size, window, draw), SubOrZero(dst, size))
  }

  /** The content padding for a datagram of `size` bytes; `pick` is the draw from the configured range. */
  function ContentPadding(c: Config, size: nat, dst: nat, window: nat, mtu: nat, pick: nat): nat {
    if c.contentPadding.None? || window < size then 0 else
    var a := Min(pick, window - size);
    var b := if mtu != 0 then Min(a, SubOrZero(mtu, size)) else a;
    Min(b, SubOrZero(dst, size))
  }

  function TransportPadding(c: Config, len: nat, dst: nat, window: nat, mtu: nat, pick: nat): nat {
    if c.contentPadding.Some? then ContentPadding(c, c.Unpadded(len), dst, window, mtu, pick)
    else TrailerFor(c, c.Unpadded(len), dst, window, pick)
  }

  /** Content padding is the pick, unless the window, the MTU or the buffer is full. */
  lemma ContentPaddingIsMaximal(c: Config, size: nat, dst: nat, window: nat, mtu: nat, pick: nat)
    requires c.contentPadding.Some?
    ensures var add := ContentPadding(c, size, dst, window, mtu, pick);
      && add <= pick
      && (add == pick || size + add >= window || (mtu != 0 && size + add >= mtu) || size + add >= dst)
  {
  }

  /** Every trailer up to the window is possible where the buffer allows it. */
  lemma TrailersReachTheWindow(c: Config, size: nat, dst: nat, window: nat, add: nat)
    requires c.randomTrailers && size + add < window && size + add <= dst
    ensures TrailerFor(c, size, dst, window, add) == add
  {
  }

  lemma TrailerBounds(c: Config, size: nat, dst: nat, window: nat, draw: nat)
    ensures var add := TrailerFor(c, size, dst, window, draw);
      add > 0 ==> c.randomTrailers && size + add < window && size + add <= dst
  {
    if size < window {
      assert draw % (window - size) < window - size;
    }
  }

  /** Exactly those trailers: below the window, within the buffer, and none with trailers off. */
  lemma TrailersExactly(c: Config, size: nat, dst: nat, window: nat, add: nat)
    ensures (exists draw: nat :: TrailerFor(c, size, dst, window, draw) == add) <==>
      add == 0 || (c.randomTrailers && size + add < window && size + add <= dst)
  {
    if add == 0 {
      assert TrailerFor(c, size, dst, window, 0) == 0;
    } else if c.randomTrailers && size + add < window && size + add <= dst {
      TrailersReachTheWindow(c, size, dst, window, add);
    }
    forall draw: nat ensures var a := TrailerFor(c, size, dst, window, draw);
      a > 0 ==> c.randomTrailers && size + a < window && size + a <= dst
    {
      TrailerBounds(c, size, dst, window, draw);
    }
  }

  /**
   On the send path a padded datagram stays within the buffer, within the
   window once that covers the unpadded one, and under content padding with a
   known MTU within the larger of the two.
   */
  lemma PaddedFits(c: Config, len: nat, dst: nat, window: nat, mtu: nat, pick: nat)
    requires c.Unpadded(len) <= dst && c.Unpadded(len) <= U32_MAX
    ensures var w := Observed(window, c.Unpadded(len));
      var size := c.Unpadded(len) + TransportPadding(c, len, dst, w, mtu, pick);
      && size <= dst
      && size <= w
      && (c.contentPadding.Some? && mtu != 0 ==> size <= Max(c.Unpadded(len), mtu))
  {
  }

  // ---- The keepalive that answers a handshake response ----

  /** It is padded as a datagram of size zero. */
  function ResponseKeepalive(c: Config, dst: nat, window: nat, mtu: nat, pick: nat): nat {
    c.Unpadded(0) + ContentPadding(c, 0, dst, window, mtu, pick)
  }

  /** The most its padding can come to. */
  function MostPadding(c: Config, dst: nat, window: nat, mtu: nat): nat {
    if c.contentPadding.None? then 0 else
    Min(Min(c.contentPadding.value.hi, window), if mtu != 0 then Min(mtu, dst) else dst)
  }

  /** Here the buffer is respected for every pick exactly when it has that much slack. */
  lemma ResponseKeepaliveFits(c: Config, dst: nat, window: nat, mtu: nat)
    requires c.Valid()
    ensures (forall pick: nat :: c.contentPadding.Some? && c.Picks(pick)
               ==> ResponseKeepalive(c, dst, window, mtu, pick) <= dst)
            <==> (c.contentPadding.Some? ==> c.Unpadded(0) + MostPadding(c, dst, window, mtu) <= dst)
  {
    if c.contentPadding.Some? {
      var hi := c.contentPadding.value.hi;
      assert ResponseKeepalive(c, dst, window, mtu, hi) == c.Unpadded(0) + MostPadding(c, dst, window, mtu);
      forall pick: nat | pick <= hi
        ensures ResponseKeepalive(c, dst, window, mtu, pick) <= c.Unpadded(0) + MostPadding(c, dst, window, mtu)
      {
      }
    }
  }

  /** Too small a buffer is refused up front, but one the padding overruns is a panic. */
  datatype Answer = Refused | Overruns | Sends(size: nat)

  class Tunn {
    const config: Config
    var mtu: nat
    var window: nat

    constructor (config: Config, mtu: nat)
      ensures this.config == config && this.mtu == mtu && window == DEFAULT_WINDOW
    {
      this.config := config;
      this.mtu := mtu;
      window := DEFAULT_WINDOW;
    }

    method Observe(size: nat)
      modifies this`window
      ensures window == Observed(old(window), size)
    {
      var seen := Min(size, U32_MAX);
      if window < seen {
        window := seen;
      }
    }

    method SetMtu(mtu: nat)
      modifies this`mtu
      ensures this.mtu == mtu
    {
      this.mtu := mtu;
    }

    method ResetWindow()
      modifies this`window
      ensures window == DEFAULT_WINDOW
    {
      window := DEFAULT_WINDOW;
    }

    /** The size of the datagram sent for a packet of `len` bytes, or nothing if it cannot fit the buffer. */
    method Encapsulate(len: nat, dst: nat, pick: nat) returns (size: Option<nat>)
      requires config.Unpadded(len) <= U32_MAX
      modifies this`window
      ensures size.None? <==> config.Unpadded(len) > dst
      ensures size.None? ==> window == old(window)
      ensures size.Some? ==>
        && window == Observed(old(window), config.Unpadded(len))
        && size.value == config.Unpadded(len) + TransportPadding(config, len, dst, window, mtu, pick)
        && config.Unpadded(len) <= size.value <= dst && size.value <= window
        && (config.contentPadding.Some? && mtu != 0 ==> size.value <= Max(config.Unpadded(len), mtu))
    {
      var unpadded := config.s4 + DATA_OVERHEAD + len;
      if unpadded > dst {
        return None;
      }
      PaddedFits(config, len, dst, window, mtu, pick);
      Observe(unpadded);
      size := Some(unpadded + TransportPadding(config, len, dst, window, mtu, pick));
    }

    /** The keepalive sent when a handshake response has been accepted; it does not raise the window of its sender. */
    method AnswerResponse(dst: nat, pick: nat) returns (answer: Answer)
      requires config.Picks(pick)
      ensures answer == Refused <==> config.Unpadded(0) > dst
      ensures answer == Overruns <==> config.Unpadded(0) <= dst < ResponseKeepalive(config, dst, window, mtu, pick)
      ensures answer.Sends? ==> answer.size == ResponseKeepalive(config, dst, window, mtu, pick)
    {
      if config.s4 + DATA_OVERHEAD > dst {
        return Refused;
      }
      var padding := ContentPadding(config, 0, dst, window, mtu, pick);
      if dst - config.s4 < padding + DATA_OVERHEAD {
        return Overruns;
      }
      answer := Sends(config.s4 + DATA_OVERHEAD + padding);
    }
  }

  // ---- Two peers ----

  /**
   Both windows and MTUs, the datagrams sent so far, the largest of them before
   padding, and the largest datagram taken in that neither peer sent: a window
   grows before anything in a datagram is authenticated.
   */
  datatype World = World(window: seq<nat>, mtu: seq<nat>, sent: seq<nat>, largest: nat, foreign: nat) {
    predicate Sized() { |window| == 2 && |mtu| == 2 }
  }

  datatype Event =
    | Send(peer: nat, len: nat, dst: nat, pick: nat)
    | AnswerResponse(peer: nat, dst: nat, pick: nat)
    | Receive(peer: nat, datagram: nat)
    | TakeForeign(peer: nat, size: nat)
    | SetMtu(peer: nat, to: nat)
    | Reset(peer: nat)

  function Initial(mtu: seq<nat>): World { World([DEFAULT_WINDOW, DEFAULT_WINDOW], mtu, [], 0, 0) }

  /** Two valid configurations with the same S4. */
  predicate Peers(configs: seq<Config>) {
    |configs| == 2 && configs[0].s4 == configs[1].s4 && configs[0].Valid() && configs[1].Valid()
  }

  /** Anything sent may arrive at either end, any number of times, in any order. */
  predicate Enabled(configs: seq<Config>, w: World, e: Event)
    requires Peers(configs) && w.Sized()
  {
    e.peer < 2 &&
    var c := configs[e.peer];
    match e
    case Send(_, len, dst, _) => c.Unpadded(len) <= dst && c.Unpadded(len) <= U32_MAX
    case AnswerResponse(p, dst, pick) => c.Picks(pick) && ResponseKeepalive(c, dst, w.window[p], w.mtu[p], pick) <= dst
    case Receive(_, d) => d < |w.sent|
    case TakeForeign(_, size) => c.Unpadded(0) <= size <= U32_MAX
    case SetMtu(_, to) => to <= U32_MAX
    case Reset(_) => true
  }

  function Next(configs: seq<Config>, w: World, e: Event): (r: World)
    requires Peers(configs) && w.Sized() && Enabled(configs, w, e)
    ensures r.Sized()
  {
    match e
    case Send(p, len, dst, pick) =>
      var c := configs[p];
      var window := Observed(w.window[p], c.Unpadded(len));
      w.(window := w.window[p := window],
         sent := w.sent + [c.Unpadded(len) + TransportPadding(c, len, dst, window, w.mtu[p], pick)],
         largest := Max(w.largest, c.Unpadded(len)))
    case AnswerResponse(p, dst, pick) =>
      var c := configs[p];
      w.(sent := w.sent + [ResponseKeepalive(c, dst, w.window[p], w.mtu[p], pick)],
         largest := Max(w.largest, c.Unpadded(0)))
    case Receive(p, d) => w.(window := w.window[p := Observed(w.window[p], w.sent[d])])
    case TakeForeign(p, size) =>
      w.(window := w.window[p := Observed(w.window[p], size)], foreign := Max(w.foreign, size))
    case SetMtu(p, to) => w.(mtu := w.mtu[p := to])
    case Reset(p) => w.(window := w.window[p := DEFAULT_WINDOW])
  }

  /** The most a response keepalive can be padded by under an MTU. */
  function ReachUnder(c: Config, mtu: nat): nat {
    if mtu != 0 then Min(c.Reach(), mtu) else c.Reach()
  }

  /** The keepalive that answers a response cannot outgrow the starting window, however it is padded. */
  predicate Harmless(c: Config, mtu: nat) {
    ReachUnder(c, mtu) == 0 || c.Unpadded(0) + ReachUnder(c, mtu) <= DEFAULT_WINDOW
  }

  /** How far that keepalive can pull a window up. */
  function Pull(c: Config, mtu: nat): nat {
    if Harmless(c, mtu) then 0 else c.Unpadded(0) + ReachUnder(c, mtu)
  }

  /** The starting window, or the largest datagram really carried, the peers' own unpadded. */
  function Carried(w: World): nat { Max(Max(DEFAULT_WINDOW, w.largest), w.foreign) }

  /** Windows and datagrams stay under what was carried, or under `pull`. */
  ghost predicate Bounded(w: World, pull: nat) {
    && w.Sized()
    && (forall p :: 0 <= p < 2 ==> w.window[p] <= Max(Carried(w), pull))
    && (forall d :: 0 <= d < |w.sent| ==> w.sent[d] <= Max(Carried(w), pull))
  }

  lemma SendStaysUnder(c: Config, len: nat, dst: nat, window: nat, mtu: nat, pick: nat, bound: nat)
    requires c.Unpadded(len) <= dst && c.Unpadded(len) <= U32_MAX
    requires window <= bound && c.Unpadded(len) <= bound
    ensures var w := Observed(window, c.Unpadded(len));
      w <= bound && c.Unpadded(len) + TransportPadding(c, len, dst, w, mtu, pick) <= bound
  {
    PaddedFits(c, len, dst, window, mtu, pick);
  }

  lemma ResponseStaysUnder(c: Config, dst: nat, window: nat, mtu: nat, pick: nat)
    requires c.Picks(pick)
    ensures ResponseKeepalive(c, dst, window, mtu, pick) <= Max(Max(DEFAULT_WINDOW, c.Unpadded(0)), Pull(c, mtu))
  {
  }

  /** The step answers a response, if it does, under an MTU that lets it pull no further than `pull`. */
  predicate PullsUpTo(configs: seq<Config>, w: World, e: Event, pull: nat) {
    e.AnswerResponse? && e.peer < |configs| && e.peer < |w.mtu| ==> Pull(configs[e.peer], w.mtu[e.peer]) <= pull
  }

  lemma StepKeepsBounded(configs: seq<Config>, w: World, e: Event, pull: nat)
    requires Peers(configs) && Bounded(w, pull) && Enabled(configs, w, e) && PullsUpTo(configs, w, e, pull)
    ensures Bounded(Next(configs, w, e), pull)
  {
    var c, bound := configs[e.peer], Max(Carried(Next(configs, w, e)), pull);
    match e
    case Send(p, len, dst, pick) => SendStaysUnder(c, len, dst, w.window[p], w.mtu[p], pick, bound);
    case AnswerResponse(p, dst, pick) => ResponseStaysUnder(c, dst, w.window[p], w.mtu[p], pick);
    case _ =>
  }

  ghost predicate IsRun(configs: seq<Config>, mtu: seq<nat>, run: seq<World>, events: seq<Event>) {
    && Peers(configs) && |mtu| == 2
    && |run| == |events| + 1 && run[0] == Initial(mtu)
    && (forall i :: 0 <= i < |run| ==> run[i].Sized())
    && forall i :: 0 <= i < |events| ==>
      Enabled(configs, run[i], events[i]) && run[i + 1] == Next(configs, run[i], events[i])
  }

  /** Over any exchange both windows stay under what was carried, or what the response keepalives pull. */
  lemma {:induction false} RunKeepsBounded(
      configs: seq<Config>, mtu: seq<nat>, run: seq<World>, events: seq<Event>, i: nat, pull: nat)
    requires IsRun(configs, mtu, run, events) && i < |run|
    requires forall k :: 0 <= k < i ==> PullsUpTo(configs, run[k], events[k], pull)
    ensures Bounded(run[i], pull)
  {
    if i > 0 {
      RunKeepsBounded(configs, mtu, run, events, i - 1, pull);
      StepKeepsBounded(configs, run[i - 1], events[i - 1], pull);
    }
  }

  /** No window is larger than what was really carried. */
  ghost predicate Unratcheted(w: World) {
    w.Sized() && forall p :: 0 <= p < 2 ==> w.window[p] <= Carried(w)
  }

  /**
   Padding never ratchets, over any exchange in which every response keepalive
   is harmless under the MTU of the moment: both windows stay at most 500 or
   the largest unpadded datagram, the peers' or a stranger's.
   */
  lemma NeverRatchets(configs: seq<Config>, mtu: seq<nat>, run: seq<World>, events: seq<Event>, i: nat)
    requires IsRun(configs, mtu, run, events) && i < |run|
    requires forall k :: 0 <= k < i ==> PullsUpTo(configs, run[k], events[k], 0)
    ensures Unratcheted(run[i])
  {
    RunKeepsBounded(configs, mtu, run, events, i, 0);
  }

  lemma Extend(configs: seq<Config>, mtu: seq<nat>, run: seq<World>, events: seq<Event>, e: Event)
    requires IsRun(configs, mtu, run, events) && Enabled(configs, run[|events|], e)
    ensures IsRun(configs, mtu, run + [Next(configs, run[|events|], e)], events + [e])
  {
  }

  lemma Start(configs: seq<Config>, mtu: seq<nat>)
    requires Peers(configs) && |mtu| == 2
    ensures IsRun(configs, mtu, [Initial(mtu)], [])
  {
  }

  /** Nobody changes an MTU. */
  predicate MtuFixed(events: seq<Event>) { forall k :: 0 <= k < |events| ==> !events[k].SetMtu? }

  /** Any other peer ratchets the other's window with its first response keepalive. */
  lemma RatchetsOtherwise(configs: seq<Config>, mtu: seq<nat>, p: nat)
    returns (run: seq<World>, events: seq<Event>)
    requires Peers(configs) && |mtu| == 2 && p < 2 && !Harmless(configs[p], mtu[p])
    ensures IsRun(configs, mtu, run, events) && MtuFixed(events) && !Unratcheted(run[|events|])
  {
    var c, start := configs[p], Initial(mtu);
    var dst := c.Unpadded(0) + c.Reach() + DEFAULT_WINDOW;
    var e, f := AnswerResponse(p, dst, c.Reach()), Receive(1 - p, 0);
    var size := ResponseKeepalive(c, dst, DEFAULT_WINDOW, mtu[p], c.Reach());
    assert Max(DEFAULT_WINDOW, c.Unpadded(0)) < size <= U32_MAX;
    var first := Next(configs, start, e);
    var second := Next(configs, first, f);
    assert second.window[1 - p] == size && second.largest == c.Unpadded(0) && second.foreign == 0;
    Start(configs, mtu);
    Extend(configs, mtu, [start], [], e);
    Extend(configs, mtu, [start] + [first], [] + [e], f);
    run, events := [start] + [first] + [second], [] + [e] + [f];
  }

  /** Whatever two peers exchange under these MTUs, neither pulls the other's window up. */
  ghost predicate Settled(configs: seq<Config>, mtu: seq<nat>) {
    forall run, events :: IsRun(configs, mtu, run, events) && MtuFixed(events) ==> Unratcheted(run[|events|])
  }

  lemma {:induction false} MtuStays(configs: seq<Config>, mtu: seq<nat>, run: seq<World>, events: seq<Event>, i: nat)
    requires IsRun(configs, mtu, run, events) && MtuFixed(events) && i < |run|
    ensures run[i].mtu == mtu
  {
    if i > 0 {
      MtuStays(configs, mtu, run, events, i - 1);
    }
  }

  /** Under fixed MTUs two peers never ratchet exactly when both response keepalives are harmless there. */
  lemma SettledExactly(configs: seq<Config>, mtu: seq<nat>)
    requires Peers(configs) && |mtu| == 2
    ensures Settled(configs, mtu) <==> Harmless(configs[0], mtu[0]) && Harmless(configs[1], mtu[1])
  {
    forall p | 0 <= p < 2 && !Harmless(configs[p], mtu[p]) ensures !Settled(configs, mtu) {
      var run, events := RatchetsOtherwise(configs, mtu, p);
    }
    if Harmless(configs[0], mtu[0]) && Harmless(configs[1], mtu[1]) {
      forall run, events | IsRun(configs, mtu, run, events) && MtuFixed(events) ensures Unratcheted(run[|events|]) {
        forall k | 0 <= k < |events| ensures PullsUpTo(configs, run[k], events[k], 0) {
          MtuStays(configs, mtu, run, events, k);
        }
        NeverRatchets(configs, mtu, run, events, |events|);
      }
    }
  }

  /** One keepalive answered and received with a reach beyond the window adds a whole unpadded datagram to it. */
  lemma RatchetRound(configs: seq<Config>, w: World, p: nat) returns (sent: World, received: World)
    requires Peers(configs) && w.Sized() && p < 2 && w.window[p] <= ReachUnder(configs[p], w.mtu[p])
    requires w.window[1 - p] <= w.window[p] && w.window[p] + configs[p].Unpadded(0) <= U32_MAX
    ensures var c := configs[p];
      var e := AnswerResponse(p, c.Unpadded(0) + w.window[p], c.Reach());
      && Enabled(configs, w, e) && sent == Next(configs, w, e)
      && Enabled(configs, sent, Receive(1 - p, |w.sent|)) && received == Next(configs, sent, Receive(1 - p, |w.sent|))
      && received.window == w.window[1 - p := w.window[p] + c.Unpadded(0)] && received.mtu == w.mtu
      && received.largest == Max(w.largest, c.Unpadded(0)) && received.foreign == w.foreign
  {
    var c := configs[p];
    var e := AnswerResponse(p, c.Unpadded(0) + w.window[p], c.Reach());
    sent := Next(configs, w, e);
    received := Next(configs, sent, Receive(1 - p, |w.sent|));
  }

  lemma RatchetStep(configs: seq<Config>, mtu: seq<nat>, run: seq<World>, events: seq<Event>, p: nat)
    returns (run': seq<World>, events': seq<Event>)
    requires IsRun(configs, mtu, run, events) && p < 2
    requires var w := run[|events|];
      && w.window[p] <= ReachUnder(configs[p], w.mtu[p])
      && w.window[1 - p] <= w.window[p] && w.window[p] + configs[p].Unpadded(0) <= U32_MAX
    ensures IsRun(configs, mtu, run', events')
    ensures var w, w' := run[|events|], run'[|events'|];
      && w'.window == w.window[1 - p := w.window[p] + configs[p].Unpadded(0)] && w'.mtu == w.mtu
      && w'.largest == Max(w.largest, configs[p].Unpadded(0)) && w'.foreign == w.foreign
  {
    var w, c := run[|events|], configs[p];
    var sent, received := RatchetRound(configs, w, p);
    var e, f := AnswerResponse(p, c.Unpadded(0) + w.window[p], c.Reach()), Receive(1 - p, |w.sent|);
    Extend(configs, mtu, run, events, e);
    Extend(configs, mtu, run + [sent], events + [e], f);
    run', events' := run + [sent] + [received], events + [e] + [f];
  }

  /**
   The ratchet: while the reach of both peers is beyond the window, every
   handshake adds the size of an empty datagram to it, though nothing larger
   than an empty datagram is ever carried. With a padding of 1000, an MTU of
   1420 and no S4, fifteen handshakes take the window from 500 to 980.
   */
  lemma {:induction false} Ratchets(configs: seq<Config>, mtu: seq<nat>, n: nat, top: nat, p: nat)
    returns (run: seq<World>, events: seq<Event>)
    requires Peers(configs) && |mtu| == 2 && top == DEFAULT_WINDOW + n * configs[0].Unpadded(0) && p < 2
    requires top <= ReachUnder(configs[0], mtu[0]) && top <= ReachUnder(configs[1], mtu[1])
    ensures IsRun(configs, mtu, run, events)
    ensures var last := run[|events|];
      && last.window[p] == top && last.window[1 - p] <= top && last.mtu == mtu
      && last.largest <= configs[0].Unpadded(0) && last.foreign == 0
    decreases n
  {
    if n == 0 {
      Start(configs, mtu);
      run, events := [Initial(mtu)], [];
    } else {
      var size := configs[0].Unpadded(0);
      assert n * size == (n - 1) * size + size;
      run, events := Ratchets(configs, mtu, n - 1, top - size, 1 - p);
      run, events := RatchetStep(configs, mtu, run, events, 1 - p);
    }
  }
}
