# A verified model of awgtun

awgtun is a userspace WireGuard implementation that also speaks AmneziaWG and
Phobos. This project models its stateful core in Dafny and proves what that
core is for. `dafny verify dfyconfig.toml` checks everything.

Cryptography is symbolic (terms with injective constructors, Diffie-Hellman
that commutes, boxes that open under their own key and associated data), or a
keystream parameter where only XOR matters. Randomness and clock readings are
inputs. Concurrent code is a state machine over its steps.

| file | what it is |
|---|---|
| `Options` | values that may be missing |
| `Words`, `ReplayWindow`, `Receivers` | the anti-replay bitmap as a set of counters, and receivers interleaving on it |
| `UpgradeLock` | the cooperative read-to-write lock, any number of threads, with closures that may panic |
| `SymbolicCrypto`, `Handshake`, `HandshakeRuns` | the Noise handshake object, and every run of any number of ends over a network an attacker controls while static keys leak |
| `CookieExchange`, `CookieRuns` | the rate limiter and its cookies, and the challenged end's handshake and timers run together |
| `Bytes`, `Wire`, `PrefixRedraw` | AmneziaWG datagrams: classification, both receive paths, sending, the prefix redraw |
| `Crc`, `CrcCheck`, `Phobos`, `PhobosCodec`, `PhobosLimits` | the Phobos payload encoding, STUN and RTP frames, the codec object, and what it takes for its own |
| `Text`, `Cps`, `CpsPackets`, `ConfigFields`, `AmneziaConfig`, `ConfigLines`, `TunnelSettings` | the configuration language, its signature chains, incremental update, and what a tunnel takes from a configuration |
| `Timers`, `Renewal`, `TunnelTimers` | timers, session ring and handshake phase as values, when they act over a run, and the object that updates them |
| `Lfsr`, `FieldSquares`, `FieldPowers`, `LfsrPeriod` | the index register, and its period by arithmetic in the field it steps through |
| `PeerIndex`, `DeviceApi` | the device's peer tables, and a configuration block applied to the device |
| `Padding` | window, content padding and trailers of two peers |
| `BufferedRng`, `SeedBudget` | the buffered random source across threads and forks, and how long a seed lasts |

The main theorems, each over all inputs or all runs:

* `HandshakeRuns.SessionsAgree`: whatever an attacker drops, repeats, reorders
  or forges, a session an initiator completes while its peer's static key is
  unrevealed has a responder session with swapped keys, and the attacker can
  never build those keys, whatever static keys it learns later; both hold the
  same preshared key, which alone decides whether a response is accepted
  (`Handshake.PresharedKeyDecides`). The index
  fields of a response are not sealed, so the indices are crossed exactly when
  those fields arrived intact; `Handshake.SenderIndexIsNotSealed` shows one that
  did not, and `HandshakeRuns.UntamperedIsCrossed` that a network which only
  loses, repeats, reorders and misroutes always crosses them.
* `ReplayWindow.ReceivingKeyCounterValidator.MarkDidReceive`: the ring bitmap,
  through all three clearing loops, is the set of received counters.
  `Receivers.DeliveredOrigin`: whatever threads interleave on it, only a packet
  its thread checked and decrypted is delivered.
* `UpgradeLock.WriterIsAloneAndCurrent`, `UpgradeLock.CallsComplete` and
  `UpgradeLock.PanicStrandsTheWaiting`: safety of the upgrade; every call
  completes under every schedule as long as no closure panics; and a panic, which
  leaves the flag set, strands exactly the calls that were waiting then.
  `UpgradeLock.WriteIsSeen` and `UpgradeLock.GuardShowsOneValue`: what is read is
  what was written last, and does not change under a guard.
* `Wire.ReceiveBothWays` and `Wire.RoundTrip`: the device's in-place path and
  the tunnel's own path agree on every non-empty datagram, and a datagram is
  misread exactly when an earlier candidate fits.
* `PhobosCodec.UnwrapUndoesWrap`: the codec round trip with its exact
  exceptions, and `PhobosCodec.LossesAreFarApart` for a whole RTP stream.
* `AmneziaConfig.Overlay` and `AmneziaConfig.ParsedSurvives`: incremental
  update is field-wise overlay, and printing is inverse to parsing.
  `DeviceApi.ApplyBlock` says exactly when an update is made, refused or panics,
  and `TunnelSettings.ParsedServes` that whatever was read makes a sound tunnel.
* `Timers.RunIsGood`, `Timers.RunStaysYoung`, `Timers.StampIsLatest`,
  `Timers.RetryBound`: no time underflows, sessions stay in their slots, rightly
  stamped and young, retries are bounded.
* `Renewal.TickStarts` and `Renewal.ReasonsOfRun`: exactly when a tick starts a
  handshake, told from the events of the run; `Renewal.RenewsBeforeRejection`: an
  initiator that sends renews its session before it is rejected;
  `Renewal.Acknowledges` and `Renewal.CallsAgain`: what comes in is acknowledged,
  and a silent peer called again, in time;
  `Renewal.UsesNewest`: packets go out on the newest session the peer has used.
* `LfsrPeriod.FullPeriod`: from every seed the index register runs through all
  16 777 215 non-zero states.
* `PeerIndex.Device.Route` with the invariant every operation keeps: an index
  routes to the peer that used it or to nobody.
* `CookieRuns.CookieUnlocksLimiter`: over every run of the challenged end, what
  it sends next passes exactly from an address with the padded bytes of the
  challenged one, in the limiter's epoch, and if no tick has found the cookie
  120 seconds old; `CookieRuns.ChallengedAgain` shows one that did, within the
  epoch. `CookieExchange.BadMacsLeaveNoTrace`: messages with a bad mac1 never use
  up credit or change the limiter.
* `BufferedRng.NeverTwice`: no keystream position is handed out twice.
* `Padding.SettledExactly`: under given MTUs two peers never pull each other's
  padding up exactly when their response keepalives cannot outgrow the starting
  window; `Padding.Ratchets` shows how far the others go.

## Model

| member | source | states |
|---|---|---|
| `Words.BitUpdate` | awgtun/src/noise/session.rs:51-82 | setting or clearing one bit of a 64-bit word changes that bit and no other |
| `ReplayWindow.SameSlot` | awgtun/src/noise/session.rs:51-82 | counters less than 1024 apart share no bitmap slot |
| `ReplayWindow.ClearWordMore` | awgtun/src/noise/session.rs:137-141 | clearing a whole word extends the cleared stretch by 64 counters |
| `ReplayWindow.JumpAhead` | awgtun/src/noise/session.rs:125-149 | a counter 1024 or more ahead leaves nothing of the old window |
| `ReplayWindow.ReceivingKeyCounterValidator.constructor` | awgtun/src/noise/session.rs:35-48 | a new validator represents the empty history |
| `ReplayWindow.ReceivingKeyCounterValidator.SetBit` | awgtun/src/noise/session.rs:51-56 | exactly the slot of the counter becomes set |
| `ReplayWindow.ReceivingKeyCounterValidator.ClearBit` | awgtun/src/noise/session.rs:59-64 | exactly the slot of the counter becomes clear |
| `ReplayWindow.ReceivingKeyCounterValidator.ClearWord` | awgtun/src/noise/session.rs:68-72 | exactly the 64 slots of the counter's word become clear |
| `ReplayWindow.ReceivingKeyCounterValidator.CheckBit` | awgtun/src/noise/session.rs:76-82 | the slot's bit, which is whether the counter was received while it is in the window |
| `ReplayWindow.ReceivingKeyCounterValidator.WillAccept` | awgtun/src/noise/session.rs:85-101 | the three answers, each exactly: too old, received before, acceptable |
| `ReplayWindow.ReceivingKeyCounterValidator.ClearSkipped` | awgtun/src/noise/session.rs:131-146 | the bit, word and bit loops clear exactly the slots of the skipped counters |
| `ReplayWindow.ReceivingKeyCounterValidator.MarkDidReceive` | awgtun/src/noise/session.rs:104-151 | succeeds exactly for a counter never received and at most 1024 behind, adds it to the history, and a refusal changes nothing |
| `ReplayWindow.ReceivingKeyCounterValidator.CounterMark` | awgtun/src/noise/session.rs:184-191 | a mark that succeeds also counts the packet |
| `Receivers.StepKeepsInvariant` | awgtun/src/noise/session.rs:178-191 | quick check, decryption and mark by different threads keep the history equal to what was delivered; that only decrypted packets are delivered is `DeliveredOrigin` |
| `Receivers.DeliveredOnce` | awgtun/src/noise/session.rs:248-286 | under any interleaving no counter is delivered twice, and `receive_cnt` counts the distinct delivered counters and never exceeds `next` |
| `Receivers.Monotone` | awgtun/src/noise/session.rs:178-191 | deliveries and `next` only grow along a run |
| `Receivers.OpenedIsDeliveredUnlessStale` | awgtun/src/noise/session.rs:248-280 | a packet that decrypted, its counter more than 1024 below 2^64, is dropped exactly when its counter was delivered by then or fell out of the window |
| `Receivers.DeliveredOrigin` | awgtun/src/noise/session.rs:248-286 | every counter delivered was marked by a thread that had quick-checked that very counter and then decrypted the packet successfully, with no step of its own in between |
| `Receivers.ForgeriesChangeNothing` | awgtun/src/noise/session.rs:248-280 | a run in which no decryption succeeds delivers nothing and leaves the window as it was |
| `Receivers.GenuineGetsThrough` | awgtun/src/noise/session.rs:178-280 | from every reachable state a packet passes the quick check exactly if its counter is not delivered and not too far behind; if it then decrypts it is delivered, if not nothing has changed |
| `UpgradeLock.StepKeepsInvariant` | awgtun/src/device/dev_lock.rs:26-99 | every step of every thread, closures that panic included, keeps mutual exclusion, the flag set exactly by a mark or a past panic, and a waker or a panic behind every sleeper |
| `UpgradeLock.RunKeepsInvariant` | awgtun/src/device/dev_lock.rs:26-99 | and so does every run |
| `UpgradeLock.WriterIsAloneAndCurrent` | awgtun/src/device/dev_lock.rs:60-99 | a writer excludes everyone, and the value its prep function saw, itself the last one written, is the value its closure starts from |
| `UpgradeLock.WriteIsSeen` | awgtun/src/device/dev_lock.rs:80-99 | until another closure runs, the value is what the last one left behind |
| `UpgradeLock.ValueUntilWritten` | awgtun/src/device/dev_lock.rs:26-99 | before any closure has run it is the initial value |
| `UpgradeLock.GuardShowsOneValue` | awgtun/src/device/dev_lock.rs:28-45 | while a thread holds a read guard no closure runs and the value does not change |
| `UpgradeLock.UpgradeKeepsItsWrite` | awgtun/src/device/dev_lock.rs:80-99 | from the end of its closure to the end of its mark an upgrade finds the value it wrote |
| `UpgradeLock.NoNewReaderOnceMarked` | awgtun/src/device/dev_lock.rs:28-45 | once a write is marked no other thread gains a read guard, marks or writes |
| `UpgradeLock.NoDeadlock` | awgtun/src/device/dev_lock.rs:26-99 | a reachable state is deadlocked exactly when a closure has panicked, some thread sleeps, and every other one is outside |
| `UpgradeLock.PanicShutsTheLock` | awgtun/src/device/dev_lock.rs:28-40 | after a closure panicked, in every continuation, a waiting call waits still and a thread outside never gets in |
| `UpgradeLock.StepMakesProgress` | awgtun/src/device/dev_lock.rs:26-99 | a step that starts no call lowers a well-founded measure |
| `UpgradeLock.CallsComplete` | awgtun/src/device/dev_lock.rs:26-99 | if no new call starts, every schedule is finite, and without a panic it ends with every call done and no guard held |
| `UpgradeLock.PanicStrandsTheWaiting` | awgtun/src/device/dev_lock.rs:80-99 | with a panic, whatever the schedule, the calls that never complete are exactly those that were waiting when it happened |
| `UpgradeLock.PanicLeadsToDeadlock` | awgtun/src/device/dev_lock.rs:80-99 | from every state that has seen a panic some schedule runs into a deadlock |
| `SymbolicCrypto.DhCommutes` | awgtun/src/noise/handshake.rs:507-512 | both ends of an exchange compute the same shared secret |
| `Handshake.HandshakeObject.constructor` | awgtun/src/noise/handshake.rs:413-438 | a fresh handshake |
| `Handshake.HandshakeObject.IncIndex` | awgtun/src/noise/handshake.rs:469-474 | only the low eight bits of the index cycle |
| `Handshake.HandshakeObject.AppendMacs` | awgtun/src/noise/handshake.rs:691-716 | mac1 always, mac2 under a held cookie, and the mac1 remembered for a cookie reply |
| `Handshake.HandshakeObject.Initiate` | awgtun/src/noise/handshake.rs:718-796 | the first message, and the state moved to previous |
| `Handshake.HandshakeObject.AnswerInitialization` | awgtun/src/noise/handshake.rs:484-568 | every check in order; a refused initiation changes nothing, an accepted one moves the timestamp gate and is answered |
| `Handshake.HandshakeObject.FormatResponse` | awgtun/src/noise/handshake.rs:798-889 | the second message and the responder's session, both made with the preshared key, as `PresharedKeyDecides` shows |
| `Handshake.HandshakeObject.ConsumeResponse` | awgtun/src/noise/handshake.rs:570-650 | a response completes the current or the previous initiation it names, once and only under the same preshared key, or changes nothing |
| `Handshake.HandshakeObject.Expire` | awgtun/src/noise/handshake.rs:451-454 | both states become expired |
| `Handshake.FirstMessageOpens` | awgtun/src/noise/handshake.rs:484-547 | what an initiator seals, the responder opens, down to the timestamp |
| `Handshake.SecondMessageAgrees` | awgtun/src/noise/handshake.rs:585-636 | both ends derive the same keys from the second message under one preshared key |
| `Handshake.ExchangeCompletes` | awgtun/src/noise/handshake.rs:484-889 | an undisturbed exchange gives two sessions with swapped keys and crossed indices |
| `Handshake.FinishInjective` | awgtun/src/noise/handshake.rs:855-880 | the sealed field of a response determines the transcript, the chaining key and the preshared key |
| `Handshake.DirectionKeys` | awgtun/src/noise/handshake.rs:873-889 | the keys of the two directions are never equal, and each determines the chaining key and the preshared key |
| `Handshake.PresharedKeyDecides` | awgtun/src/noise/handshake.rs:570-889 | between two ends that name each other's static keys an undisturbed response is accepted exactly when both hold the same preshared key, and otherwise fails to authenticate |
| `Handshake.SenderIndexIsNotSealed` | awgtun/src/noise/handshake.rs:570-650 | a response whose sender index was altered on the way is still accepted, so crossed indices need intact index fields |
| `HandshakeRuns.InitiationIsGenuine` | awgtun/src/noise/handshake.rs:484-552 | an initiation that opens under an unrevealed peer's key was sent by that peer to this end |
| `HandshakeRuns.ResponseIsGenuine` | awgtun/src/noise/handshake.rs:570-624 | a response an initiator accepts was sent by its peer for that initiation under the same preshared key, if the peer's static key is unrevealed |
| `HandshakeRuns.StepKeepsInvariant` | awgtun/src/noise/handshake.rs:484-889 | every step at every end, and every revealed static key, keeps the logs of initiations, answers and sessions in place |
| `HandshakeRuns.RunKeepsInvariant` | awgtun/src/noise/handshake.rs:484-889 | and so does every run |
| `HandshakeRuns.KnownClosedUnderBuilding` | awgtun/src/noise/handshake.rs:40-160 | what the attacker knows is closed under everything it can compute, and a string that is nobody's public key gives a shared secret everybody knows |
| `HandshakeRuns.KnownClosedUnderOpening` | awgtun/src/noise/handshake.rs:123-160 | and under opening every box whose key it knows |
| `HandshakeRuns.SessionsAgree` | awgtun/src/noise/handshake.rs:484-889 | key agreement over every run while the peer's static key is unrevealed, under one preshared key, and secrecy that outlives later leaks of static keys, with indices crossed exactly when the response's index fields arrived intact |
| `HandshakeRuns.AnswerSecret` | awgtun/src/noise/handshake.rs:798-889 | the keys of an answer given while both static keys were unrevealed stay out of reach, whether or not the initiator completes |
| `HandshakeRuns.UntamperedIsCrossed` | awgtun/src/noise/handshake.rs:570-650 | where every completed response is one that was sent, however lost, repeated or misrouted, indices are always crossed |
| `HandshakeRuns.NoMoreSessionsThanAnswers` | awgtun/src/noise/handshake.rs:570-650 | every such session uses up an answer of its own, so there are never more of them than answers |
| `HandshakeRuns.ResponseConsumedOnce` | awgtun/src/noise/handshake.rs:570-650 | no two completing steps of a run accept the same sealed field |
| `HandshakeRuns.AcceptedInitiationIsGenuine` | awgtun/src/noise/handshake.rs:484-568 | every initiation accepted while both static keys are unrevealed was sent by its peer |
| `HandshakeRuns.AcceptedTimestampsIncrease` | awgtun/src/noise/handshake.rs:547-552 | accepted timestamps strictly increase, so no initiation is accepted twice |
| `HandshakeRuns.RunKeepsIndices` | awgtun/src/noise/handshake.rs:469-474 | every index an end uses keeps its peer part |
| `HandshakeRuns.InFlightIndicesDiffer` | awgtun/src/noise/handshake.rs:557-583 | two initiations in flight at one end never share an index |
| `CookieExchange.RateLimiter.constructor` | awgtun/src/noise/rate_limiter.rs:57-71 | an idle limiter |
| `CookieExchange.RateLimiter.ResetCount` | awgtun/src/noise/rate_limiter.rs:80-88 | the count restarts when a whole second has passed, to the nanosecond |
| `CookieExchange.RateLimiter.IsUnderLoad` | awgtun/src/noise/rate_limiter.rs:113-115 | loaded from the limit on, and every call counts |
| `CookieExchange.RateLimiter.CurrentCookie` | awgtun/src/noise/rate_limiter.rs:91-105 | the cookie is for the sixteen padded bytes of the address and the current epoch |
| `CookieExchange.SamePadding` | awgtun/src/noise/rate_limiter.rs:92-97 | two addresses pad to the same bytes exactly when they are equal, or an IPv4 address and its zero-extended IPv6 twin |
| `CookieExchange.RateLimiter.VerifyPacket` | awgtun/src/noise/rate_limiter.rs:166-209 | the object does what its value's `Verify` does, which `VerdictExactly` describes over any arrivals |
| `CookieExchange.ChallengeOpensForLastMessage` | awgtun/src/noise/handshake.rs:652-689 | a genuine challenge opens at the initiator exactly while the challenged message is the last it sent |
| `CookieExchange.OnlyLastIsChallenged` | awgtun/src/noise/handshake.rs:652-716 | of two initiations sent in a row only the second one's challenge still opens |
| `CookieExchange.HeldCookiePasses` | awgtun/src/noise/rate_limiter.rs:91-209 | what an end holding the cookie sends passes a loaded limiter exactly from an address with the challenged one's padded bytes in the same 128-second epoch |
| `CookieExchange.NoCookieIsChallenged` | awgtun/src/noise/rate_limiter.rs:185-204 | what an end without a cookie sends never passes a loaded limiter, and is challenged exactly if there is room |
| `CookieExchange.TwinSharesCookie` | awgtun/src/noise/rate_limiter.rs:91-105 | the cookie of an IPv4 address is good at that address and at exactly one IPv6 address |
| `CookieExchange.CreditIsBounded` | awgtun/src/noise/rate_limiter.rs:113-209 | between resets at most `limit` handshake messages pass without a valid cookie |
| `CookieExchange.BadMacsLeaveNoTrace` | awgtun/src/noise/rate_limiter.rs:174-186 | over any arrivals the limiter and the credit used are what the arrivals with a right mac1 alone make them, and each of those is counted |
| `CookieExchange.VerdictExactly` | awgtun/src/noise/rate_limiter.rs:166-209 | whatever came before, a message is rejected exactly for a bad mac1, passes exactly within the credit or from a proved address, and is challenged exactly otherwise, given an address and room |
| `CookieExchange.DisabledCountsNothing` | awgtun/src/noise/rate_limiter.rs:185-204 | with cookies disabled a message passes exactly if its mac1 is right, and nothing is counted |
| `CookieExchange.NoncesDiffer` | awgtun/src/noise/rate_limiter.rs:107-142 | no two challenges of a limiter carry the same nonce |
| `CookieRuns.StepCoupled` | awgtun/src/noise/timers.rs:264-461 | every tick, packet sent and packet taken keeps the timers' phases, indices and cookie flag those of the handshake |
| `CookieRuns.RunIsCoupled` | awgtun/src/noise/timers.rs:264-461 | and so does every run |
| `CookieRuns.StepAges` | awgtun/src/noise/timers.rs:296-301 | a step that brings no cookie keeps the one held, unless it is a tick of an unexpired tunnel 120 seconds after the register, which moves only when the timers are cleared |
| `CookieRuns.CookieAges` | awgtun/src/noise/timers.rs:296-301 | so a cookie is still held exactly if there was no such tick since its receipt or the last clearing |
| `CookieRuns.CookieUnlocksLimiter` | awgtun/src/noise/rate_limiter.rs:91-209 | over every run, what a challenged end sends next passes the loaded limiter exactly from an address with the challenged one's padded bytes, in the same 128-second epoch, and if its own timers have not dropped the cookie |
| `CookieRuns.SinceReceipt` | awgtun/src/noise/timers.rs:171-178 | without a clearing in between the 120 seconds count from the receipt |
| `CookieRuns.ChallengedAgain` | awgtun/src/noise/timers.rs:296-301 | with the default timings, challenged at one second, ticked at 122 and sending at 123: same address, same epoch, and challenged again |
| `Wire.FirstFit` | awgtun/src/noise/mod.rs:218-318 | the first candidate whose size and type tests succeed, or none does |
| `Wire.ClassifyIsFirst` | awgtun/src/noise/mod.rs:218-318 | a datagram is classified as a kind exactly when that kind fits and no earlier candidate does |
| `Wire.ApplyInPlace` | awgtun/src/amnezia.rs:1336-1345 | header protection XORs the region and nothing before it |
| `Wire.MaskHeaderInPlace` | awgtun/src/device/mod.rs:771-800 | a transport header unmasked with a keystream derived earlier |
| `Wire.DeviceReceive` | awgtun/src/device/mod.rs:771-813 | stripping, decrypting and trimming in place leaves the recovered message |
| `Wire.TunnReceive` | awgtun/src/noise/mod.rs:891-960 | the borrowing path hands on the recovered message, or the data packet it parses to, or flushes the queue exactly for an empty datagram |
| `Wire.AssembleTransport` | awgtun/src/noise/mod.rs:921-947 | a data packet put together from a decrypted header and the untouched ciphertext is what parsing gives |
| `Wire.ReceiveBothWays` | awgtun/src/noise/mod.rs:891-960 | both paths give the same packet or the same rejection for every non-empty datagram under any valid configuration; the empty one the device rejects and the tunnel takes as a call to flush |
| `Wire.OwnKindFits` | awgtun/src/noise/mod.rs:218-318 | a datagram always fits the kind it was sent as |
| `Wire.ExtractUndoesSending` | awgtun/src/noise/mod.rs:1034-1060 | read as what it is, a datagram gives back its message, trailer trimmed and ciphertext untouched |
| `Wire.KindParses` | awgtun/src/noise/mod.rs:391-434 | a message of a kind parses as that kind |
| `Wire.ParsePartitions` | awgtun/src/noise/mod.rs:391-434 | parsing cuts a message into fields of the right sizes with nothing left out in between |
| `Wire.RoundTrip` | awgtun/src/noise/mod.rs:218-318 | a datagram is taken for another kind exactly when an earlier candidate fits; otherwise the exact message comes back and parses; trailers on protects transport, trailers off protects initiations |
| `Wire.WriteProtected` | awgtun/src/noise/mod.rs:1237-1252 | prefix and protected message are in place |
| `Wire.SendHandshake` | awgtun/src/noise/mod.rs:1207-1272 | the datagram sent, or nothing written when the buffer is too small |
| `PrefixRedraw.PredictionIsExact` | awgtun/src/noise/mod.rs:844-883 | the sender's prediction is the decision of a peer that tries handshakes first |
| `PrefixRedraw.FirstClear` | awgtun/src/noise/mod.rs:786-810 | the first draw that does not collide, or the last |
| `PrefixRedraw.ProtectHeader` | awgtun/src/noise/mod.rs:787-810 | the header is protected afresh from its clear copy |
| `PrefixRedraw.WritePrefix` | awgtun/src/noise/mod.rs:787-810 | prefix and header are replaced, the ciphertext stays |
| `PrefixRedraw.TryDraw` | awgtun/src/noise/mod.rs:787-810 | one turn leaves the datagram for that draw and tells whether it collides |
| `PrefixRedraw.Redraw` | awgtun/src/noise/mod.rs:787-810 | the bounded loop ends on the first clear draw or the eighth |
| `PrefixRedraw.FormatTransport` | awgtun/src/noise/mod.rs:761-812 | what is sent is the message under the chosen prefix, whatever the draws |
| `PrefixRedraw.PeerRecoversTransport` | awgtun/src/noise/mod.rs:761-883 | it unmasks to the message, and a handshake-first peer takes it for transport exactly when some draw did not collide |
| `Crc.EntryStep` | awgtun/src/phobos/mod.rs:422-446 | one table lookup is eight steps of the shift register |
| `Crc.TableIsRegister` | awgtun/src/phobos/mod.rs:422-446 | the table-driven CRC-32 is the bit-serial one on every input |
| `Crc.ComputeCrc32` | awgtun/src/phobos/mod.rs:442-446 | the fold computes it |
| `Crc.EntryStep8` | awgtun/src/phobos/mod.rs:398-419 | one lookup of the CRC-8 table is eight steps of its register |
| `CrcCheck.Check32` | awgtun/src/phobos/mod.rs:422-446 | CRC-32 of the nine digits is the catalogued CBF43926 |
| `CrcCheck.Check8` | awgtun/src/phobos/mod.rs:398-419 | CRC-8 of the nine digits is the catalogued A1 |
| `Phobos.AdjustKey` | awgtun/src/phobos/mod.rs:457-465 | the key as it is used for a region of that length |
| `Phobos.AdjustedValue` | awgtun/src/phobos/mod.rs:459-465 | each key byte is shifted by the lengths of region and key, modulo 256 |
| `Phobos.KeystreamIsCrc` | awgtun/src/phobos/mod.rs:466-470 | keystream byte `i` is the bit-serial CRC-8 of the adjusted key repeated up to it |
| `Phobos.XorChain` | awgtun/src/phobos/mod.rs:466-470 | each byte is XORed with the running CRC of the repeating key |
| `Phobos.ApplyKeystream` | awgtun/src/phobos/mod.rs:457-471 | exactly the region is masked, with the keystream for its length |
| `Phobos.TailFits` | awgtun/src/phobos/mod.rs:499-521 | a tail keeps the payload under 1024 bytes and on the same side of the masking limit |
| `PhobosLimits.TailExactly` | awgtun/src/phobos/mod.rs:499-521 | exactly these tail lengths can be drawn: none under partial masking; under 1024 bytes in all and within the masking limit; under 512 for handshake messages, under the configured bound for the rest, none for any other type |
| `Phobos.Encode` | awgtun/src/phobos/mod.rs:481-531 | the message at the end of the vector becomes its encoding, what precedes it stays |
| `Phobos.DecodeInPlace` | awgtun/src/phobos/mod.rs:537-552 | the buffer and the length decoding reports, and nothing else changes |
| `Phobos.DecodeUndoesEncode` | awgtun/src/phobos/mod.rs:481-552 | for every key, draw and limit decoding gives the message with bytes 1 to 3 cleared, then the tail |
| `PhobosCodec.HandleStun` | awgtun/src/phobos/mod.rs:620-651 | a payload it locates lies inside the datagram, and a reply names a whole transaction and an IPv4 address |
| `PhobosCodec.LengthFits` | awgtun/src/phobos/mod.rs:190-204 | the 16-bit STUN length never truncates |
| `PhobosCodec.StunLocates` | awgtun/src/phobos/mod.rs:620-655 | a STUN frame's payload is found where it was put |
| `PhobosCodec.MediaLocates` | awgtun/src/phobos/mod.rs:870-917 | an RTP frame's payload is found unless its timestamp is the STUN cookie, and then it is dropped |
| `PhobosLimits.StreamHeardExactly` | awgtun/src/phobos/mod.rs:870-917 | a receiver hears exactly the RTP streams of the source and payload type it is set to, and no frame stamped like a STUN cookie |
| `PhobosLimits.ForeignIsDropped` | awgtun/src/phobos/mod.rs:870-917 | what is neither STUN nor RTP version 2, or too short, is dropped |
| `PhobosLimits.StunHeardExactly` | awgtun/src/phobos/mod.rs:620-651 | of all STUN messages with an attribute exactly the Data Indications with a DATA attribute first and both lengths inside the datagram yield a payload, and exactly Binding Requests from an IPv4 address a reply |
| `PhobosLimits.StunComplete` | awgtun/src/phobos/mod.rs:620-651 | and every such datagram is one of those messages |
| `PhobosLimits.SixteenByDefault` | awgtun/src/phobos/mod.rs:333-340 | under RTP framing with no limit set, everything after the first 16 bytes of a longer message is sent in the clear |
| `PhobosCodec.UnwrapUndoesWrap` | awgtun/src/phobos/mod.rs:803-917 | the round trip: always under STUN, under RTP exactly unless the timestamp is the cookie, bare exactly unless the encoding looks plain; otherwise nothing is delivered |
| `PhobosCodec.ClearedIsIdentity` | awgtun/src/phobos/mod.rs:15-19 | a message survives intact exactly when its bytes 1 to 3 are zero |
| `PhobosCodec.NthTimestamp` | awgtun/src/phobos/mod.rs:698-706 | the timestamp of frame `k` is the first plus `k` steps modulo 2^32 |
| `PhobosCodec.NthSequence` | awgtun/src/phobos/mod.rs:698-706 | the sequence number of frame `k`, and the stream keeps serving its configuration |
| `PhobosCodec.FrameOnTheWire` | awgtun/src/phobos/mod.rs:698-706 | the header of frame `k` carries that sequence number and timestamp |
| `PhobosCodec.FrameIsLostIff` | awgtun/src/phobos/mod.rs:803-917 | frame `k` of a stream is lost exactly when its timestamp comes to the cookie |
| `PhobosCodec.LossesAreFarApart` | awgtun/src/phobos/mod.rs:698-706 | of any 65537 frames in a row at most one is lost |
| `PhobosCodec.BindingExchange` | awgtun/src/phobos/mod.rs:582-651 | a Binding Request is answered with its own transaction unless it came from an IPv6 address, and an answer is never answered |
| `PhobosCodec.AnswerNamesTheSource` | awgtun/src/phobos/mod.rs:591-612 | the reply carries the transaction, address and port of the request |
| `PhobosLimits.SuccessIsWellFormed` | awgtun/src/phobos/mod.rs:582-612 | the reply's length is that of its two attributes, an IPv4 address and a fingerprint |
| `PhobosCodec.FingerprintCoversZeroLength` | awgtun/src/phobos/mod.rs:565-580 | the FINGERPRINT is the bit-serial CRC of everything before it while the length field is still zero |
| `PhobosCodec.Codec.constructor` | awgtun/src/phobos/mod.rs:777-785 | a codec without a stream |
| `PhobosCodec.Codec.WriteRtpHeader` | awgtun/src/phobos/mod.rs:671-706 | the header of the current stream, opened on its first frame, which then advances |
| `PhobosCodec.Codec.Wrap` | awgtun/src/phobos/mod.rs:803-862 | both refusals exactly, the datagram sent, a Binding Request exactly before a framed initiation, and the stream |
| `PhobosCodec.Codec.UnwrapInPlace` | awgtun/src/phobos/mod.rs:870-917 | what is delivered lies in the buffer, or the reply to send, or nothing, as the datagram determines |
| `Text.DecimalParses` | awgtun/src/amnezia.rs:1748-1764 | a printed number parses back |
| `Text.UnhexHex` | awgtun/src/amnezia.rs:1768-1787 | a printed key parses back |
| `Cps.TagParses` | awgtun/src/amnezia.rs:944-1008 | every tag prints to text that parses to it |
| `Cps.ChainPrintParse` | awgtun/src/amnezia.rs:965-973 | every chain the parser can return prints to text that parses to it |
| `Cps.ChainReturned` | awgtun/src/amnezia.rs:882-908 | and those are the chains it returns |
| `Cps.DecodeHex` | awgtun/src/amnezia.rs:1025-1040 | the loop over byte pairs computes the bytes, the first error, or the panic on a slice that ends inside a character |
| `Cps.HexParses` | awgtun/src/amnezia.rs:1025-1040 | printed bytes come back from any pair on |
| `Cps.HexPanics` | awgtun/src/amnezia.rs:1030-1034 | decoding panics exactly when some even byte offset, reached through good pairs only, is inside a character |
| `Cps.TagPanics` | awgtun/src/amnezia.rs:975-1040 | a tag panics exactly when it is a bytes tag with such an argument of even byte length |
| `Cps.ChainPanics` | awgtun/src/amnezia.rs:882-908 | a chain panics exactly when a tag does before any tag is rejected |
| `Cps.CpsParser.SkipWhitespace` | awgtun/src/amnezia.rs:910-918 | white space is skipped, and whether anything is left |
| `Cps.CpsParser.ReadTag` | awgtun/src/amnezia.rs:886-897 | the text between the next brackets, or that there are none |
| `Cps.CpsParser.Parse` | awgtun/src/amnezia.rs:882-908 | the tag loop returns what the text denotes, the first error in it, or panics where a tag does |
| `CpsPackets.BigEndianTail` | awgtun/src/amnezia.rs:860-867 | the last bytes of a 64-bit length are its shorter big-endian form |
| `CpsPackets.BigEndianNumber` | awgtun/src/amnezia.rs:819-826 | big-endian bytes stand for the number they were made from, less a multiple of their range |
| `CpsPackets.DrawnExactly` | awgtun/src/amnezia.rs:827-844 | a random tag yields exactly the bytes of its kind, each from the draws of one residue |
| `CpsPackets.SegmentsUnique` | awgtun/src/amnezia.rs:737-746 | tags, clock, draws and data determine the packet |
| `CpsPackets.TooWideIsAccepted` | awgtun/src/amnezia.rs:1043-1058 | the parser accepts every size tag from 9 to 65535 bytes, on which generation panics |
| `CpsPackets.FillRandom` | awgtun/src/amnezia.rs:827-844 | each byte is what its draw makes of it: a byte, a letter or a digit, as the tag says |
| `CpsPackets.GenerateTag` | awgtun/src/amnezia.rs:807-869 | one tag writes exactly its segment, the clock for a timestamp, or panics exactly if it is a size tag wider than eight bytes |
| `CpsPackets.GenerateAll` | awgtun/src/amnezia.rs:739-743 | the loop fills the buffer with the tags' segments, or stops at the first size tag wider than eight bytes |
| `CpsPackets.Generate` | awgtun/src/amnezia.rs:737-746 | a packet has exactly the announced length and is the tags' segments back to back, and generation panics exactly if some size tag is wider than eight bytes |
| `ConfigFields.FieldFromFinds` | awgtun/src/amnezia.rs:1528-1593 | every key name selects its own field |
| `ConfigFields.ParseRange` | awgtun/src/amnezia.rs:1173-1196 | a range that parses ends no earlier than it starts |
| `ConfigFields.RangeParses` | awgtun/src/amnezia.rs:1248-1257 | a printed range parses back |
| `ConfigFields.ReadFits` | awgtun/src/amnezia.rs:1528-1593 | what a value parses to is something its field may hold |
| `ConfigFields.ValueParses` | awgtun/src/amnezia.rs:1624-1727 | every value a field may hold prints on one line and parses back |
| `AmneziaConfig.Checked` | awgtun/src/amnezia.rs:1446-1475 | accepted exactly with disjoint headers, ordered junk sizes and, under header protection, paddings of at least 12 |
| `AmneziaConfig.FieldRead` | awgtun/src/amnezia.rs:1513-1602 | a printed line sets its field and nothing else |
| `AmneziaConfig.Overlay` | awgtun/src/device/api.rs:262-280 | for every configuration and block, parsing the printed configuration followed by the block is validating the block's assignments made over it, errors and panics included |
| `AmneziaConfig.UpdatePanics` | awgtun/src/amnezia.rs:1507-1615 | parsing an update panics exactly when a line sets a signature chain that panics and every line before it is sound |
| `AmneziaConfig.AccentPanics` | awgtun/src/amnezia.rs:1030-1034 | one accented letter among the digits of `i1` panics in every configuration |
| `AmneziaConfig.PrintParse` | awgtun/src/amnezia.rs:1617-1727 | printing a configuration and parsing the result gives it back |
| `AmneziaConfig.ParsedSurvives` | awgtun/src/amnezia.rs:1507-1727 | everything the parser returns is such a configuration |
| `AmneziaConfig.ParseText` | awgtun/src/amnezia.rs:1507-1615 | the line loop computes the parse, first error or panic first |
| `AmneziaConfig.PrintText` | awgtun/src/amnezia.rs:1624-1727 | the walk over the fields prints the block |
| `ConfigLines.TrimPadded` | awgtun/src/amnezia.rs:1514-1527 | trimming takes the white space off both ends and nothing else |
| `ConfigLines.UserLine` | awgtun/src/amnezia.rs:1513-1527 | a key in any case, with any white space around it and its value, sets its field |
| `ConfigLines.CommentLine` | awgtun/src/amnezia.rs:1513-1518 | blank and comment lines change nothing |
| `ConfigLines.PlusParses` | awgtun/src/amnezia.rs:1748-1764 | a plus sign before a number is allowed |
| `ConfigLines.SwitchWords` | awgtun/src/amnezia.rs:1737-1746 | the nine spellings each of on and off |
| `ConfigLines.SizedTagReads` | awgtun/src/amnezia.rs:975-1008 | `r`, `rc`, `rd` and `dz` with a length are random bytes, letters, digits and the data size |
| `ConfigLines.BareTagReads` | awgtun/src/amnezia.rs:975-1008 | `t`, `d` and `ds` are the timestamp, the data and its base64 |
| `ConfigLines.ZeroKeyClears` | awgtun/src/amnezia.rs:1557-1565 | a protection key of zeros turns header protection off |
| `ConfigLines.ZeroRangeClears` | awgtun/src/amnezia.rs:1566-1570 | a zero range turns content padding off |
| `TunnelSettings.ParsedServes` | awgtun/src/noise/mod.rs:526-562 | a tunnel made from any block that was read has disjoint header ranges, room for the protection nonce, and ordered timing and padding ranges |
| `TunnelSettings.JunkLines` | awgtun/src/amnezia.rs:1529-1531 | a block of `jc`, `jmin` and `jmax` lines is read exactly if no junk is sent or the sizes are in order |
| `TunnelSettings.PaddingLines` | awgtun/src/noise/mod.rs:218-241 | `s1` to `s4` become the padding of initiations, responses, cookie replies and data |
| `TunnelSettings.HeaderLines` | awgtun/src/amnezia.rs:1536-1551 | `h1` to `h4` become the types of the same four, and are read exactly if no two overlap |
| `TunnelSettings.HeaderAlone` | awgtun/src/amnezia.rs:548-592 | one header line alone is read exactly if it avoids the WireGuard types of the other three messages |
| `TunnelSettings.ProtectionLine` | awgtun/src/amnezia.rs:1446-1475 | a protection key reaches the framing exactly if every padding leaves room for its nonce |
| `TunnelSettings.SwitchLines` | awgtun/src/amnezia.rs:1589-1590 | `random_trailers` and `disable_cookies` each set their own switch |
| `TunnelSettings.ContentLines` | awgtun/src/amnezia.rs:1566-1593 | `content_padding_addition` and `mtu` reach the padding |
| `TunnelSettings.TimingLines` | awgtun/src/amnezia.rs:1571-1588 | the six timings written under their names are the timings the tunnel gets |
| `TunnelSettings.ChainLines` | awgtun/src/amnezia.rs:1082-1094 | any two of `i1` to `i5`, written either way round, are sent in the order of their numbers |
| `Timers.TickKeeps` | awgtun/src/noise/timers.rs:264-461 | a tick keeps the tunnel sound and leaves no live session older than the upper rejection time |
| `Timers.AnsweredKeeps` | awgtun/src/noise/mod.rs:1015-1060 | so does answering an initiation |
| `Timers.RespondedKeeps` | awgtun/src/noise/mod.rs:1062-1094 | so does taking a response |
| `Timers.DataKeeps` | awgtun/src/noise/mod.rs:1131-1164 | so does taking data |
| `Timers.StepKeepsGood` | awgtun/src/noise/timers.rs:171-461 | every event keeps the tunnel sound |
| `Timers.RunIsGood` | awgtun/src/noise/timers.rs:171-461 | over every run no timer is in the future, so no subtraction of one underflows, a live session sits in slot `index mod 8`, born no earlier than the slot's timer says, and an expired handshake means no live session |
| `Timers.RunStaysYoung` | awgtun/src/noise/timers.rs:236-251 | after each tick of a run no live session is older, counted from its true birth, than the upper rejection time |
| `Timers.StampIsLatest` | awgtun/src/noise/timers.rs:212-221 | over a whole run no value of the current-time register lies between a session's stamp and its true birth: the stamp is its last value before then |
| `Timers.RetryStep` | awgtun/src/noise/timers.rs:312-333 | a retransmission goes out only while time is left, and a tick at the deadline expires |
| `Timers.ExpiredIsSilent` | awgtun/src/noise/timers.rs:292-294 | an expired tunnel initiates nothing by itself |
| `Timers.RetryBound` | awgtun/src/noise/timers.rs:132-153 | a timer-driven handshake sends at most deadline over least timeout initiations, rounded up, exactly when the deadline is not zero, and otherwise only the first; 18 with the defaults |
| `Timers.ZeroBudgetStillInitiates` | awgtun/src/noise/timers.rs:145-152 | a budget of zero attempts still sends the first initiation, where the rounded quotient is zero |
| `Timers.TickKeepalive` | awgtun/src/noise/timers.rs:407-423 | a tick sends a keepalive only if one is owed, and then none is |
| `Timers.OneKeepalive` | awgtun/src/noise/timers.rs:407-458 | however long nothing arrives, what arrived last is acknowledged by at most one keepalive |
| `Timers.SumsFitExactly` | awgtun/src/noise/timers.rs:364-397 | the two 32-bit sums of configured times are right for every pick exactly when the largest keepalive and rekey timeouts together fit |
| `Renewal.TickStarts` | awgtun/src/noise/timers.rs:334-461 | exactly when a tick outside a handshake of our own starts one: data was sent, or received, on an initiator's session that is old enough, data got no answer for long enough, or a keepalive is wanted and there is no session for it |
| `Renewal.TickSends` | awgtun/src/noise/timers.rs:407-461 | exactly when it sends a keepalive instead |
| `Renewal.TickStartsAtTheLatest` | awgtun/src/noise/timers.rs:334-380 | at the upper ends of the ranges an initiator's used session starts one whatever is picked |
| `Renewal.TickRetries` | awgtun/src/noise/timers.rs:312-333 | in a handshake of our own a tick gives up exactly at the deadline, and before it repeats the initiation exactly when the timeout drawn for it has passed |
| `Renewal.TickGivesUp` | awgtun/src/noise/timers.rs:301-310 | three rejection times after the last session a tick gives up and leaves no session |
| `Renewal.ReasonsOfRun` | awgtun/src/noise/timers.rs:195-221 | over every run, a session counts as an initiator's, established at its stamp and with data since, exactly if the latest establishing event completed a response and a later event sent (brought) data after that time |
| `Renewal.Renews` | awgtun/src/noise/timers.rs:334-352 | over every run with ticks at most a second apart, an initiator that sent data on its session initiates no more than a second after it is due and data was sent, or was already initiating |
| `Renewal.RenewsBeforeRejection` | awgtun/src/noise/timers.rs:334-352 | with the default timings the next handshake starts before the session is three minutes old |
| `Renewal.StepTraffic` | awgtun/src/noise/timers.rs:195-210 | every event moves the timers of packets sent and received, and the two flags, exactly by whether it sends or takes in something authenticated |
| `Renewal.Acknowledges` | awgtun/src/noise/timers.rs:407-423 | over every run, data that came in after the last packet sent is followed by a packet at a tick the upper keepalive timeout later, if nothing went out meanwhile |
| `Renewal.CallsAgain` | awgtun/src/noise/timers.rs:382-405 | over every run, data that went out after the last packet received is followed by a handshake at a tick the longest patience later, if nothing came in meanwhile |
| `Renewal.TickPersistent` | awgtun/src/noise/timers.rs:425-449 | a tick begins a new persistent interval, with its own pick, exactly if one is over and no handshake is due |
| `Renewal.UsesNewest` | awgtun/src/noise/mod.rs:1115-1164 | over every run, while any session the peer has used is live, the session in use is live and established no earlier |
| `TunnelTimers.Tunn.constructor` | awgtun/src/noise/timers.rs:95-117 | a fresh tunnel |
| `TunnelTimers.Tunn.TimerTick` | awgtun/src/noise/timers.rs:195-210 | the named timer takes the current time, and the two flags follow it |
| `TunnelTimers.Tunn.SessionEstablished` | awgtun/src/noise/timers.rs:212-221 | the slot is stamped |
| `TunnelTimers.Tunn.ClearTimers` | awgtun/src/noise/timers.rs:171-178 | every timer takes the given time |
| `TunnelTimers.Tunn.ClearAll` | awgtun/src/noise/timers.rs:225-234 | no session is left |
| `TunnelTimers.Tunn.UpdateSessionTimers` | awgtun/src/noise/timers.rs:236-251 | exactly the slots too old are emptied and restarted |
| `TunnelTimers.Tunn.FormatHandshakeInitiation` | awgtun/src/noise/mod.rs:1207-1272 | when an initiation goes out, and what it does to timers, deadline and phase |
| `TunnelTimers.Tunn.EncapsulatePacket` | awgtun/src/noise/mod.rs:645-688 | a packet is sent on the current session, or a handshake is started for it |
| `TunnelTimers.Tunn.QuietTick` | awgtun/src/noise/timers.rs:334-449 | the object does what its value's quiet tick does, which `Renewal.TickStarts` and `Renewal.TickSends` describe exactly |
| `TunnelTimers.Tunn.SendKeepalive` | awgtun/src/noise/timers.rs:407-449 | owed and persistent keepalives |
| `TunnelTimers.Tunn.UpdateTimers` | awgtun/src/noise/timers.rs:264-461 | the whole tick, sound before and after; what it does and when is stated of its value in `Renewal` |
| `TunnelTimers.Tunn.SetCurrentSession` | awgtun/src/noise/mod.rs:1115-1128 | a session becomes current when there is none or it is no older; over a run that is `Renewal.UsesNewest` |
| `TunnelTimers.Tunn.HandleHandshakeInit` | awgtun/src/noise/mod.rs:1034-1053 | the responder's session is stored and stamped in its slot |
| `TunnelTimers.Tunn.HandleHandshakeResponse` | awgtun/src/noise/mod.rs:1078-1092 | the initiator's session is stored, stamped and made current, or nothing changes |
| `TunnelTimers.Tunn.HandleData` | awgtun/src/noise/mod.rs:1149-1163 | the session it opened under becomes current, and the receive timers move |
| `Lfsr.MaskedStepIsStep` | awgtun/src/device/mod.rs:1153 | the branch-free step is the register's step |
| `Lfsr.StepInjective` | awgtun/src/device/mod.rs:1153 | the step never merges two 24-bit states |
| `Lfsr.AfterInRange` | awgtun/src/device/mod.rs:1148-1156 | the register stays a nonzero 24-bit state |
| `Lfsr.WindBack` | awgtun/src/device/mod.rs:1148-1156 | a repeated state means a return to the seed |
| `Lfsr.NextIsNew` | awgtun/src/device/mod.rs:1148-1156 | until the register is back at its seed, the next value was never handed out |
| `Lfsr.IndexLfsr.constructor` | awgtun/src/device/mod.rs:1159-1168 | a seeded register |
| `Lfsr.IndexLfsr.Next` | awgtun/src/device/mod.rs:1148-1156 | a 24-bit value never handed out before, or the assertion exactly when the register is back at its seed |
| `FieldSquares.SquareOfStep` | awgtun/src/device/mod.rs:1148-1156 | squaring a state of the register, as an element of the field, turns one step into two |
| `FieldPowers.Doubling` | awgtun/src/device/mod.rs:1148-1156 | from the unit, twice as many steps come to the square |
| `FieldPowers.NoQuotient` | awgtun/src/device/mod.rs:1148-1156 | the register is not back at the unit after the period divided by any of its prime factors |
| `LfsrPeriod.PeriodIsLeast` | awgtun/src/device/mod.rs:1148-1156 | it is back after 16 777 215 steps and no fewer |
| `LfsrPeriod.StateIsPower` | awgtun/src/device/mod.rs:1148-1156 | every non-zero 24-bit state is reached from the unit |
| `LfsrPeriod.FullPeriod` | awgtun/src/device/mod.rs:1148-1156 | so from every seed the register returns after exactly 16 777 215 steps |
| `LfsrPeriod.RunsOutExactly` | awgtun/src/device/mod.rs:1148-1156 | and the assertion of too many peers fires exactly after 16 777 214 indices, all different |
| `PeerIndex.Peer.constructor` | awgtun/src/noise/mod.rs:528-536 | a tunnel starts from its index shifted by eight |
| `PeerIndex.Peer.SetTunnel` | awgtun/src/device/mod.rs:453-456 | a replaced tunnel uses the new index |
| `PeerIndex.Peer.IncIndex` | awgtun/src/noise/handshake.rs:469-474 | every index a tunnel uses carries its peer's index |
| `PeerIndex.CycledIsNew` | awgtun/src/noise/handshake.rs:469-474 | no two wire indices are followed by the same one, and none is back within two handshakes |
| `PeerIndex.ExactMove` | awgtun/src/device/mod.rs:453-456 | moving a peer keeps the table exact |
| `PeerIndex.Device.constructor` | awgtun/src/device/mod.rs:474-530 | empty tables |
| `PeerIndex.Device.Route` | awgtun/src/device/mod.rs:857-859 | an index routes to the live peer that holds it, and a stale one to nobody |
| `PeerIndex.Device.UseIndex` | awgtun/src/noise/handshake.rs:469-474 | every index a live tunnel puts on the wire routes to its own peer |
| `PeerIndex.Device.SetKey` | awgtun/src/device/mod.rs:576-598 | the device and every tunnel speak for the new key, under the same indices |
| `PeerIndex.Device.RemovePeer` | awgtun/src/device/mod.rs:293-306 | the table stays exactly `{p.index -> p}`, and the index is stale from then on |
| `PeerIndex.Device.AddPeer` | awgtun/src/device/mod.rs:309-381 | a new peer under a never-used index, exactly unless the key is present, the indices have run out or there is no key pair; stale indices stay stale |
| `PeerIndex.Device.ClearPeers` | awgtun/src/device/mod.rs:623-627 | every index ever used is stale |
| `PeerIndex.Device.Rebuild` | awgtun/src/device/mod.rs:433-456 | one peer moves to a never-used index exactly if there is one, the others keep theirs |
| `PeerIndex.Device.RebuildInOrder` | awgtun/src/device/mod.rs:415-457 | the loop over the collected peers, with the register's steps counted |
| `PeerIndex.Device.RebuildAll` | awgtun/src/device/mod.rs:409-457 | every peer, whatever the order, exactly if the register yields that many more indices |
| `PeerIndex.Device.SetAmneziaConfig` | awgtun/src/device/mod.rs:395-460 | an unchanged configuration or a missing key changes no table, otherwise every peer is rebuilt, exactly unless the indices run out |
| `DeviceApi.NewDevice` | awgtun/src/device/mod.rs:474-530 | a device starts from the default configuration |
| `DeviceApi.ReadMerged` | awgtun/src/device/api.rs:262-280 | printing, appending and reading again gives the overlay, and what it gives survives printing |
| `DeviceApi.ApplyBlock` | awgtun/src/device/api.rs:262-280 | a sound block overlays the configuration and rebuilds the peers, a rejected one changes nothing, and it panics exactly when reading does or when a rebuild runs out of indices, the new configuration then already in force |
| `Padding.PaddedFits` | awgtun/src/noise/mod.rs:701-754 | a padded datagram stays within the buffer, the window and, with content padding and an MTU, the larger of MTU and unpadded size |
| `Padding.ContentPaddingIsMaximal` | awgtun/src/noise/mod.rs:720-754 | the padding is the pick unless window, MTU or buffer is full |
| `Padding.TrailersReachTheWindow` | awgtun/src/noise/mod.rs:568-575 | every trailer up to the window is possible where the buffer allows it |
| `Padding.TrailersExactly` | awgtun/src/noise/mod.rs:568-575 | and exactly those: below the window, within the buffer, none with trailers off |
| `Padding.Tunn.constructor` | awgtun/src/noise/mod.rs:514-563 | the starting window |
| `Padding.Tunn.Observe` | awgtun/src/noise/mod.rs:585-587 | the window is a high-water mark |
| `Padding.Tunn.ResetWindow` | awgtun/src/noise/mod.rs:610-612 | back to the starting window |
| `Padding.Tunn.SetMtu` | awgtun/src/noise/mod.rs:1183-1185 | only the MTU changes |
| `Padding.Tunn.Encapsulate` | awgtun/src/noise/mod.rs:645-688 | refused exactly when it cannot fit; otherwise the size sent and its three bounds |
| `Padding.Tunn.AnswerResponse` | awgtun/src/noise/mod.rs:1072-1092 | refused exactly when the unpadded keepalive cannot fit, a panic exactly when its padding overruns the buffer, otherwise the size sent |
| `Padding.StepKeepsBounded` | awgtun/src/noise/mod.rs:1143-1147 | sending, answering a response, taking in anything ever sent or a stranger's datagram, a new MTU and a reset keep both windows under what was carried or what the response keepalives pull |
| `Padding.RunKeepsBounded` | awgtun/src/noise/mod.rs:568-587 | and so does every exchange |
| `Padding.NeverRatchets` | awgtun/src/amnezia.rs:1130-1139 | both windows stay at most 500 or the largest datagram carried, the peers' own unpadded, as long as every response keepalive fits the starting window under the MTU of the moment |
| `Padding.RatchetsOtherwise` | awgtun/src/noise/mod.rs:1080-1081 | a peer whose response keepalive does not fit there pulls the other's window past that bound with its first one, whatever the MTUs |
| `Padding.SettledExactly` | awgtun/src/noise/mod.rs:720-754 | so under fixed MTUs two peers never ratchet exactly when both response keepalives fit |
| `Padding.Ratchets` | awgtun/src/noise/mod.rs:1080-1081 | while the padding reaches beyond the window every handshake adds the size of an empty datagram to it |
| `Padding.ResponseKeepaliveFits` | awgtun/src/noise/mod.rs:1070-1081 | the keepalive that answers a response is padded as if its size were zero, and fits for every pick exactly when the buffer has that much slack |
| `BufferedRng.TakeSlice` | awgtun/src/amnezia.rs:217-224 | within a buffer, bytes one by one are a slice |
| `BufferedRng.TakeMore` | awgtun/src/amnezia.rs:206-225 | taking in two parts is taking at once |
| `BufferedRng.FastRngState.constructor` | awgtun/src/amnezia.rs:150-176 | a freshly seeded state |
| `BufferedRng.FastRngState.Reseed` | awgtun/src/amnezia.rs:178-185 | a new seed, and nothing buffered |
| `BufferedRng.FastRngState.Refill` | awgtun/src/amnezia.rs:187-204 | the next block of the keystream, from a new seed after a megabyte |
| `BufferedRng.FastRngState.Chunk` | awgtun/src/amnezia.rs:214-224 | one turn of the copying loop |
| `BufferedRng.FastRngState.Fill` | awgtun/src/amnezia.rs:206-225 | filling by whole buffers hands out the keystream bytes one by one, from a new seed after a fork |
| `BufferedRng.EmitKeeps` | awgtun/src/amnezia.rs:206-225 | the position a live thread hands out was never handed out |
| `BufferedRng.ForkKeeps` | awgtun/src/amnezia.rs:106-124 | a forked copy hands out nothing before it is reseeded |
| `BufferedRng.FillKeeps` | awgtun/src/amnezia.rs:206-225 | a fill of any length keeps every position unique |
| `BufferedRng.RunKeepsInvariant` | awgtun/src/amnezia.rs:136-225 | and so does every run of fills, forks and new threads |
| `BufferedRng.NeverTwice` | awgtun/src/amnezia.rs:136-225 | no position is handed out twice, in one process or across parent and child |
| `BufferedRng.BlocksAreCounted` | awgtun/src/amnezia.rs:136-204 | `since_reseed` is 256 times `block`, which never exceeds 4096 |
| `SeedBudget.ReadyGone` | awgtun/src/amnezia.rs:187-204 | a new seed is drawn exactly when a mebibyte of the old one's keystream is gone |
| `SeedBudget.TakeExactly` | awgtun/src/amnezia.rs:187-225 | a fill reads each seed's keystream in order to the end of its mebibyte and goes on at the start of the next |

## Left out

- Sockets, TUN devices, epoll and kqueue, the UAPI socket, the CLI, FFI and JNI: input and output.
- ChaCha20, Poly1305, BLAKE2s, X25519, base64 and `hex` internals: only their laws are used.
- `AllowedIps`, statistics, loss estimates, round-trip times and logging.
- The packet queue and the queued I-packets and junk: nothing is claimed about their order or conservation.
- ReplayWindow.ReceivingKeyCounterValidator.MarkDidReceive: counters within 1024 of 2^64 are outside its precondition, because the code adds 1024 to the counter without a check.
- Receivers.OpenedIsDeliveredUnlessStale: counters within 1024 of 2^64 are outside its runs for the same reason.
- HandshakeRuns.SessionsAgree: mac1 and mac2 are not checked before the attacker's packets are processed, and preshared keys count as known to the attacker; both only make the attacker stronger. Ephemeral keys are never revealed, and an end keeps its static key.
- Handshake.HandshakeObject.AnswerInitialization: the transient received state between checking an initiation and answering it is not visible, and a response buffer too small is refused by the caller first.
- Phobos.Encode: the growing vector is a sequence that is replaced, so reallocation and spare capacity are not modelled.
- PhobosCodec.Codec.Wrap: the Binding Request and the reply are given by their transaction, address and port; `BindingRequest` and `BindingSuccess` are their bytes.
- PhobosCodec.Codec.WriteRtpHeader: the table of fifty media presets is any payload type up to 127 with a nonzero step.
- Phobos section parsing (`PhobosConfig::set`): independent bounded fields, with no printer to be inverse to.
- Cps.CpsParser.Parse: errors are kinds without their message text.
- AmneziaConfig.ParseText: errors are kinds without their message text; legacy and unknown keys are one kind; the configuration is the sequence of its 27 settings rather than a nest of records.
- Timers.SumsFitExactly: a 32-bit sum that overflows wraps, as in a release build; with overflow checks on it panics.
- Timers.RetryBound: assumes one clock reading per tick, because the deadline and the retransmit test read the clock separately.
- Renewal.Renews: assumes ticks have room to send, as the code does, which panics otherwise; a session renewed by the peer meanwhile counts as another session.
- TunnelTimers.Tunn.HandleHandshakeInit: the handshake's cryptography is decided by the caller, here as in the other `Handle` methods; `Handshake` models it.
- CookieExchange.NoncesDiffer: the 64-bit nonce counter is not taken to wrap.
- PeerIndex.Device.AddPeer: a panic is the result `false`, after which the tables are as before but nothing is promised of the index register; endpoints and allowed addresses are left out.
- Padding.Tunn.Encapsulate: datagram sizes are at most 2^32 - 1, as the window stores them.
- BufferedRng.FastRngState.Fill: a seed drawn from the operating system is taken to be new, and the fork counter not to wrap.
- Wire.SendHandshake: cookie replies are sent by the same steps and have no method of their own.
- UpgradeLock.CallsComplete: the lock has no timeouts, and its condition variable no spurious wake-ups, so neither is a step. The one caller's closure does panic on some input (awgtun/src/device/mod.rs:326-337), and so does a configuration block exactly when `DeviceApi.ApplyBlock` says so.
