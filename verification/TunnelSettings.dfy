/**
 What a tunnel takes from a configuration: the framing of its datagrams, its
 timings and its padding. Every configuration that was read serves, and each
 line of a block, by its name, reaches the part of the tunnel it is for.
 */
module TunnelSettings {
  import opened Options
  import opened Text
  import opened ConfigFields
  import opened AmneziaConfig
  import Bytes
  import Cps
  import Padding
  import Timers
  import Wire

  /** How a protection key makes a keystream. */
  type Cipher = seq<nat> -> Bytes.Keystream

  function Length(s: Setting): nat { if s.Number? then s.n else 0 }

  function HeaderOf(s: Setting): Wire.HeaderRange {
    if s.Span? then Wire.HeaderRange(s.lo, s.hi) else Wire.HeaderRange(0, 0)
  }

  function TimeOf(s: Setting): Timers.Range {
    if s.Span? then Timers.Range(s.lo, s.hi) else Timers.Range(0, 0)
  }

  function WireOf(c: Config, cipher: Cipher): Wire.Config
    requires |c| == FIELDS
  {
    Wire.Config(
      map[Wire.Init := Length(c[S1]), Wire.Response := Length(c[S1 + 1]),
          Wire.Cookie := Length(c[S1 + 2]), Wire.Transport := Length(c[S4])],
      map[Wire.Init := HeaderOf(c[H1]), Wire.Response := HeaderOf(c[H1 + 1]),
          Wire.Cookie := HeaderOf(c[H1 + 2]), Wire.Transport := HeaderOf(c[H4])],
      if c[PROTECTION_KEY].Secret? then Some(cipher(c[PROTECTION_KEY].bytes)) else None,
      c[RANDOM_TRAILERS] == Switch(true))
  }

  /** `persistentFixed` is the peer's own keepalive interval, set apart from the block. */
  function TimingOf(c: Config, persistentFixed: nat): Timers.Timing
    requires |c| == FIELDS
  {
    Timers.Timing(TimeOf(c[18]), TimeOf(c[19]), TimeOf(c[20]), TimeOf(c[21]), TimeOf(c[22]), TimeOf(c[23]),
                  persistentFixed)
  }

  function PaddingOf(c: Config): Padding.Config
    requires |c| == FIELDS
  {
    Padding.Config(
      Length(c[S4]),
      if c[ADDITION].Span? then Some(Padding.Range(c[ADDITION].lo, c[ADDITION].hi)) else None,
      c[RANDOM_TRAILERS] == Switch(true))
  }

  predicate CookiesDisabled(c: Config)
    requires |c| == FIELDS
  {
    c[DISABLE_COOKIES] == Switch(true)
  }

  /** The signature chains sent before an initiation, in order. */
  function InitChains(c: Config, f: nat): seq<seq<Cps.Tag>>
    requires |c| == FIELDS && I1 <= f <= I5 + 1
    decreases I5 + 1 - f
  {
    if f > I5 then [] else (if c[f].Tags? then [c[f].chain] else []) + InitChains(c, f + 1)
  }

  // ---- Every configuration that was read serves ----

  lemma HasAll(c: Config, cipher: Cipher)
    requires |c| == FIELDS
    ensures var w := WireOf(c, cipher); forall k: Wire.Kind :: k in w.header && k in w.padding
  {
    forall k: Wire.Kind ensures k in WireOf(c, cipher).header && k in WireOf(c, cipher).padding {
      match k
      case Init =>
      case Response =>
      case Cookie =>
      case Transport =>
    }
  }

  lemma HeadersApart(c: Config, cipher: Cipher)
    requires Canonical(c) && HeadersDisjoint(c)
    ensures var w := WireOf(c, cipher);
      && (forall k: Wire.Kind :: k in w.header)
      && forall j: Wire.Kind, k: Wire.Kind :: j != k ==> !w.header[j].Overlaps(w.header[k])
  {
    HasAll(c, cipher);
    assert Fits(KindOf(7), c[7]) && Fits(KindOf(8), c[8]) && Fits(KindOf(9), c[9]) && Fits(KindOf(10), c[10]);
    var w := WireOf(c, cipher);
    forall j: Wire.Kind, k: Wire.Kind | j != k ensures !w.header[j].Overlaps(w.header[k]) {
      match j
      case Init =>
      case Response =>
      case Cookie =>
      case Transport =>
    }
  }

  lemma PaddingsHold(c: Config, cipher: Cipher)
    requires Canonical(c) && (c[PROTECTION_KEY].Unset? || PaddingsLong(c))
    ensures var w := WireOf(c, cipher);
      && (forall k: Wire.Kind :: k in w.padding)
      && (w.protection.Some? ==> forall k: Wire.Kind :: w.padding[k] >= Wire.NONCE_SZ)
  {
    HasAll(c, cipher);
    assert Fits(KindOf(3), c[3]) && Fits(KindOf(4), c[4]) && Fits(KindOf(5), c[5]) && Fits(KindOf(6), c[6]);
    assert Fits(KindOf(PROTECTION_KEY), c[PROTECTION_KEY]);
    var w := WireOf(c, cipher);
    if w.protection.Some? {
      assert c[3].n >= 12 && c[4].n >= 12 && c[5].n >= 12 && c[6].n >= 12;
      forall k: Wire.Kind ensures w.padding[k] >= Wire.NONCE_SZ {
        match k
        case Init =>
        case Response =>
        case Cookie =>
        case Transport =>
      }
    }
  }

  lemma TimesHold(c: Config, persistentFixed: nat)
    requires Canonical(c)
    ensures TimingOf(c, persistentFixed).Valid() && PaddingOf(c).Valid()
  {
    forall f | 18 <= f <= 23 ensures TimeOf(c[f]).Valid() {
      assert Fits(KindOf(f), c[f]);
    }
    assert Fits(KindOf(S4), c[S4]) && Fits(KindOf(ADDITION), c[ADDITION]);
  }

  /**
   Whatever block was read, the tunnel made from it is sound: header ranges do
   not overlap, protected messages have room for the nonce, ranges are ordered.
   */
  lemma ParsedServes(block: string, cipher: Cipher, persistentFixed: nat)
    requires Parse(block).Ok?
    ensures |Parse(block).value| == FIELDS
    ensures WireOf(Parse(block).value, cipher).Valid()
    ensures TimingOf(Parse(block).value, persistentFixed).Valid() && PaddingOf(Parse(block).value).Valid()
  {
    ParsedSurvives(block);
    var c := Parse(block).value;
    HeadersApart(c, cipher);
    PaddingsHold(c, cipher);
    TimesHold(c, persistentFixed);
  }

  // ---- What each name is for ----

  /** A line, and the rest of the block. */
  function Entry(name: string, value: string, rest: string): string { name + "=" + value + "\n" + rest }

  lemma EntryRead(c: Config, f: nat, s: Setting, name: string, rest: string)
    requires |c| == FIELDS && f < FIELDS && Fits(KindOf(f), s) && !s.Unset? && name == NameOf(f)
    ensures Writable(s) && ReadBlock(c, Entry(name, PrintValue(s), rest)) == ReadBlock(c[f := s], rest)
  {
    FieldRead(c, f, s, rest);
  }

  function JunkBlock(count: nat, least: nat, most: nat): string {
    Entry("jc", Decimal(count), Entry("jmin", Decimal(least), Entry("jmax", Decimal(most), "")))
  }

  lemma JunkRead(c: Config, count: nat, least: nat, most: nat)
    requires |c| == FIELDS && count <= U16_MAX && least <= U16_MAX && most <= U16_MAX
    ensures ReadBlock(c, JunkBlock(count, least, most)) ==
      Ok(c[JC := Number(count)][JMIN := Number(least)][JMAX := Number(most)])
  {
    var c1 := c[JC := Number(count)];
    var c2 := c1[JMIN := Number(least)];
    var b2 := Entry("jmax", Decimal(most), "");
    EntryRead(c, JC, Number(count), "jc", Entry("jmin", Decimal(least), b2));
    EntryRead(c1, JMIN, Number(least), "jmin", b2);
    EntryRead(c2, JMAX, Number(most), "jmax", "");
    EmptyBlock(c2[JMAX := Number(most)]);
  }

  /** Once its lines are read, a block is checked. */
  lemma ThenChecked(block: string, c: Config)
    requires |c| == FIELDS && ReadBlock(Defaults(), block) == Ok(c)
    ensures Parse(block) == Checked(c)
  {
  }

  lemma JunkServes(c: Config, count: nat, least: nat, most: nat)
    requires c == Defaults()[JC := Number(count)][JMIN := Number(least)][JMAX := Number(most)]
    ensures Checked(c).Ok? <==> count == 0 || least <= most
  {
    DefaultHeadersApart(c);
  }

  /** If junk is sent, its sizes must be in order. */
  lemma JunkLines(count: nat, least: nat, most: nat, block: string)
    requires count <= U16_MAX && least <= U16_MAX && most <= U16_MAX && block == JunkBlock(count, least, most)
    ensures Parse(block).Ok? <==> count == 0 || least <= most
  {
    var c := Defaults()[JC := Number(count)][JMIN := Number(least)][JMAX := Number(most)];
    JunkRead(Defaults(), count, least, most);
    ThenChecked(block, c);
    JunkServes(c, count, least, most);
  }

  lemma DefaultHeadersApart(c: Config)
    requires |c| == FIELDS && forall f :: H1 <= f <= H4 ==> c[f] == Default(f)
    ensures HeadersDisjoint(c)
  {
    assert c[7] == Span(1, 1) && c[8] == Span(2, 2) && c[9] == Span(3, 3) && c[10] == Span(4, 4);
  }

  function PaddingBlock(s1: nat, s2: nat, s3: nat, s4: nat): string {
    Entry("s1", Decimal(s1), Entry("s2", Decimal(s2), Entry("s3", Decimal(s3), Entry("s4", Decimal(s4), ""))))
  }

  function Padded(c: Config, s1: nat, s2: nat, s3: nat, s4: nat): (r: Config)
    requires |c| == FIELDS
    ensures |r| == FIELDS
  {
    c[S1 := Number(s1)][S1 + 1 := Number(s2)][S1 + 2 := Number(s3)][S4 := Number(s4)]
  }

  lemma PaddingsRead(c: Config, s1: nat, s2: nat, s3: nat, s4: nat)
    requires |c| == FIELDS && s1 <= U16_MAX && s2 <= U16_MAX && s3 <= U16_MAX && s4 <= U16_MAX
    ensures ReadBlock(c, PaddingBlock(s1, s2, s3, s4)) == Ok(Padded(c, s1, s2, s3, s4))
  {
    var c1 := c[S1 := Number(s1)];
    var c2 := c1[S1 + 1 := Number(s2)];
    var c3 := c2[S1 + 2 := Number(s3)];
    var b3 := Entry("s4", Decimal(s4), "");
    var b2 := Entry("s3", Decimal(s3), b3);
    EntryRead(c, S1, Number(s1), "s1", Entry("s2", Decimal(s2), b2));
    EntryRead(c1, S1 + 1, Number(s2), "s2", b2);
    EntryRead(c2, S1 + 2, Number(s3), "s3", b3);
    EntryRead(c3, S4, Number(s4), "s4", "");
    EmptyBlock(Padded(c, s1, s2, s3, s4));
  }

  /** `s1` to `s4` pad initiations, responses, cookie replies and data. */
  ghost predicate Pads(r: Result, s1: nat, s2: nat, s3: nat, s4: nat, cipher: Cipher) {
    && r.Ok? && |r.value| == FIELDS && PaddingOf(r.value).s4 == s4
    && WireOf(r.value, cipher).padding ==
         map[Wire.Init := s1, Wire.Response := s2, Wire.Cookie := s3, Wire.Transport := s4]
  }

  lemma PaddingServes(c: Config, s1: nat, s2: nat, s3: nat, s4: nat, cipher: Cipher)
    requires c == Padded(Defaults(), s1, s2, s3, s4)
    ensures Pads(Checked(c), s1, s2, s3, s4, cipher)
  {
    DefaultHeadersApart(c);
  }

  lemma PaddingLines(s1: nat, s2: nat, s3: nat, s4: nat, cipher: Cipher, block: string)
    requires s1 <= U16_MAX && s2 <= U16_MAX && s3 <= U16_MAX && s4 <= U16_MAX && block == PaddingBlock(s1, s2, s3, s4)
    ensures Pads(Parse(block), s1, s2, s3, s4, cipher)
  {
    var c := Padded(Defaults(), s1, s2, s3, s4);
    PaddingsRead(Defaults(), s1, s2, s3, s4);
    ThenChecked(block, c);
    PaddingServes(c, s1, s2, s3, s4, cipher);
  }

  /** The protection key is taken exactly if all paddings leave room for its nonce. */
  ghost predicate Protects(r: Result, key: seq<nat>, s1: nat, s2: nat, s3: nat, s4: nat, cipher: Cipher) {
    && (r.Ok? <==> s1 >= 12 && s2 >= 12 && s3 >= 12 && s4 >= 12)
    && (r.Ok? ==> |r.value| == FIELDS && WireOf(r.value, cipher).protection == Some(cipher(key)))
  }

  lemma ProtectionServes(c: Config, key: seq<nat>, s1: nat, s2: nat, s3: nat, s4: nat, cipher: Cipher)
    requires c == Padded(Defaults()[PROTECTION_KEY := Secret(key)], s1, s2, s3, s4)
    ensures Protects(Checked(c), key, s1, s2, s3, s4, cipher)
  {
    DefaultHeadersApart(c);
    assert c[3] == Number(s1) && c[4] == Number(s2) && c[5] == Number(s3) && c[6] == Number(s4);
  }

  lemma ProtectionLine(
      key: seq<nat>, s1: nat, s2: nat, s3: nat, s4: nat, cipher: Cipher, block: string)
    requires |key| == 32 && AreBytes(key) && !AllZero(key)
    requires s1 <= U16_MAX && s2 <= U16_MAX && s3 <= U16_MAX && s4 <= U16_MAX
    requires block == Entry("header_protection_key", Hex(key), PaddingBlock(s1, s2, s3, s4))
    ensures Protects(Parse(block), key, s1, s2, s3, s4, cipher)
  {
    var c := Defaults()[PROTECTION_KEY := Secret(key)];
    EntryRead(Defaults(), PROTECTION_KEY, Secret(key), "header_protection_key", PaddingBlock(s1, s2, s3, s4));
    PaddingsRead(c, s1, s2, s3, s4);
    ThenChecked(block, Padded(c, s1, s2, s3, s4));
    ProtectionServes(Padded(c, s1, s2, s3, s4), key, s1, s2, s3, s4, cipher);
  }

  /** The range of message types a header line gives. */
  function HeaderBlock(h1: Setting, h2: Setting, h3: Setting, h4: Setting): string
    requires IsRange(h1) && IsRange(h2) && IsRange(h3) && IsRange(h4)
  {
    Entry("h1", PrintValue(h1),
      Entry("h2", PrintValue(h2), Entry("h3", PrintValue(h3), Entry("h4", PrintValue(h4), ""))))
  }

  lemma HeadersRead(c: Config, h1: Setting, h2: Setting, h3: Setting, h4: Setting)
    requires |c| == FIELDS && IsRange(h1) && IsRange(h2) && IsRange(h3) && IsRange(h4)
    ensures ReadBlock(c, HeaderBlock(h1, h2, h3, h4)) == Ok(c[7 := h1][8 := h2][9 := h3][10 := h4])
  {
    var b3 := Entry("h4", PrintValue(h4), "");
    var b2 := Entry("h3", PrintValue(h3), b3);
    EntryRead(c, 7, h1, "h1", Entry("h2", PrintValue(h2), b2));
    EntryRead(c[7 := h1], 8, h2, "h2", b2);
    EntryRead(c[7 := h1][8 := h2], 9, h3, "h3", b3);
    EntryRead(c[7 := h1][8 := h2][9 := h3], 10, h4, "h4", "");
    EmptyBlock(c[7 := h1][8 := h2][9 := h3][10 := h4]);
  }

  predicate Apart(h1: Setting, h2: Setting, h3: Setting, h4: Setting) {
    && !Overlap(h1, h2) && !Overlap(h1, h3) && !Overlap(h1, h4)
    && !Overlap(h2, h3) && !Overlap(h2, h4) && !Overlap(h3, h4)
  }

  /** `h1` to `h4` are the types of the same four, taken exactly if no two overlap. */
  ghost predicate Types(r: Result, h1: Setting, h2: Setting, h3: Setting, h4: Setting, cipher: Cipher) {
    && (r.Ok? <==> Apart(h1, h2, h3, h4))
    && (r.Ok? ==>
          && |r.value| == FIELDS
          && WireOf(r.value, cipher).header ==
               map[Wire.Init := HeaderOf(h1), Wire.Response := HeaderOf(h2),
                   Wire.Cookie := HeaderOf(h3), Wire.Transport := HeaderOf(h4)])
  }

  lemma HeadersServe(c: Config, h1: Setting, h2: Setting, h3: Setting, h4: Setting, cipher: Cipher)
    requires c == Defaults()[7 := h1][8 := h2][9 := h3][10 := h4]
    ensures Types(Checked(c), h1, h2, h3, h4, cipher)
  {
  }

  lemma HeaderLines(h1: Setting, h2: Setting, h3: Setting, h4: Setting, cipher: Cipher, block: string)
    requires IsRange(h1) && IsRange(h2) && IsRange(h3) && IsRange(h4) && block == HeaderBlock(h1, h2, h3, h4)
    ensures Types(Parse(block), h1, h2, h3, h4, cipher)
  {
    var c := Defaults()[7 := h1][8 := h2][9 := h3][10 := h4];
    HeadersRead(Defaults(), h1, h2, h3, h4);
    ThenChecked(block, c);
    HeadersServe(c, h1, h2, h3, h4, cipher);
  }

  /** One header line against the WireGuard types of the other three messages. */
  lemma HeaderAlone(which: nat, n: nat, name: string, block: string)
    requires 1 <= which <= 4 && n <= U32_MAX && name == ["h1", "h2", "h3", "h4"][which - 1]
    requires block == Entry(name, Decimal(n), "")
    ensures Parse(block).Ok? <==> n == which || n < 1 || n > 4
  {
    var f := H1 + which - 1;
    var c := Defaults()[f := Span(n, n)];
    EntryRead(Defaults(), f, Span(n, n), name, "");
    EmptyBlock(c);
    ThenChecked(block, c);
    OneHeader(c, which, n);
  }

  lemma OneHeader(c: Config, which: nat, n: nat)
    requires 1 <= which <= 4 && c == Defaults()[H1 + which - 1 := Span(n, n)]
    ensures Checked(c).Ok? <==> n == which || n < 1 || n > 4
  {
    assert forall f :: 7 <= f <= 10 ==> c[f] == if f == H1 + which - 1 then Span(n, n) else Span(f - 6, f - 6);
  }

  function SwitchText(on: bool): string { if on then "1" else "0" }

  function SwitchBlock(trailers: bool, noCookies: bool): string {
    Entry("random_trailers", SwitchText(trailers), Entry("disable_cookies", SwitchText(noCookies), ""))
  }

  lemma SwitchesRead(c: Config, trailers: bool, noCookies: bool)
    requires |c| == FIELDS
    ensures ReadBlock(c, SwitchBlock(trailers, noCookies)) ==
      Ok(c[RANDOM_TRAILERS := Switch(trailers)][DISABLE_COOKIES := Switch(noCookies)])
  {
    var c1 := c[RANDOM_TRAILERS := Switch(trailers)];
    EntryRead(c, RANDOM_TRAILERS, Switch(trailers), "random_trailers",
              Entry("disable_cookies", SwitchText(noCookies), ""));
    EntryRead(c1, DISABLE_COOKIES, Switch(noCookies), "disable_cookies", "");
    EmptyBlock(c1[DISABLE_COOKIES := Switch(noCookies)]);
  }

  ghost predicate Switches(r: Result, trailers: bool, noCookies: bool, cipher: Cipher) {
    && r.Ok? && |r.value| == FIELDS && CookiesDisabled(r.value) == noCookies
    && WireOf(r.value, cipher).randomTrailers == PaddingOf(r.value).randomTrailers == trailers
  }

  lemma SwitchesServe(c: Config, trailers: bool, noCookies: bool, cipher: Cipher)
    requires c == Defaults()[RANDOM_TRAILERS := Switch(trailers)][DISABLE_COOKIES := Switch(noCookies)]
    ensures Switches(Checked(c), trailers, noCookies, cipher)
  {
    DefaultHeadersApart(c);
  }

  lemma SwitchLines(trailers: bool, noCookies: bool, cipher: Cipher, block: string)
    requires block == SwitchBlock(trailers, noCookies)
    ensures Switches(Parse(block), trailers, noCookies, cipher)
  {
    var c := Defaults()[RANDOM_TRAILERS := Switch(trailers)][DISABLE_COOKIES := Switch(noCookies)];
    SwitchesRead(Defaults(), trailers, noCookies);
    ThenChecked(block, c);
    SwitchesServe(c, trailers, noCookies, cipher);
  }

  function ContentBlock(lo: nat, hi: nat, mtu: nat): string {
    Entry("content_padding_addition", PrintRange(lo, hi), Entry("mtu", Decimal(mtu), ""))
  }

  lemma ContentRead(c: Config, lo: nat, hi: nat, mtu: nat)
    requires |c| == FIELDS && lo <= hi <= U32_MAX && hi > 0 && mtu <= U32_MAX
    ensures ReadBlock(c, ContentBlock(lo, hi, mtu)) == Ok(c[ADDITION := Span(lo, hi)][MTU := Number(mtu)])
  {
    EntryRead(c, ADDITION, Span(lo, hi), "content_padding_addition", Entry("mtu", Decimal(mtu), ""));
    MtuRead(c[ADDITION := Span(lo, hi)], mtu);
  }

  lemma MtuRead(c: Config, mtu: nat)
    requires |c| == FIELDS && mtu <= U32_MAX
    ensures ReadBlock(c, Entry("mtu", Decimal(mtu), "")) == Ok(c[MTU := Number(mtu)])
  {
    EntryRead(c, MTU, Number(mtu), "mtu", "");
    EmptyBlock(c[MTU := Number(mtu)]);
  }

  /** The content padding range, and the size it is capped by. */
  ghost predicate Fills(r: Result, lo: nat, hi: nat, mtu: nat) {
    && r.Ok? && |r.value| == FIELDS && r.value[MTU] == Number(mtu)
    && PaddingOf(r.value).contentPadding == Some(Padding.Range(lo, hi))
  }

  lemma ContentServes(c: Config, lo: nat, hi: nat, mtu: nat)
    requires c == Defaults()[ADDITION := Span(lo, hi)][MTU := Number(mtu)]
    ensures Fills(Checked(c), lo, hi, mtu)
  {
    DefaultHeadersApart(c);
  }

  lemma ContentLines(lo: nat, hi: nat, mtu: nat, block: string)
    requires lo <= hi <= U32_MAX && hi > 0 && mtu <= U32_MAX && block == ContentBlock(lo, hi, mtu)
    ensures Fills(Parse(block), lo, hi, mtu)
  {
    var c := Defaults()[ADDITION := Span(lo, hi)][MTU := Number(mtu)];
    ContentRead(Defaults(), lo, hi, mtu);
    ThenChecked(block, c);
    ContentServes(c, lo, hi, mtu);
  }

  function SpanOf(r: Timers.Range): Setting { Span(r.lo, r.hi) }

  function TimingEntry(name: string, r: Timers.Range, rest: string): string {
    Entry(name, PrintRange(r.lo, r.hi), rest)
  }

  lemma TimeRead(c: Config, f: nat, name: string, r: Timers.Range, rest: string)
    requires |c| == FIELDS && 18 <= f <= 23 && name == NameOf(f) && r.Valid()
    ensures ReadBlock(c, TimingEntry(name, r, rest)) == ReadBlock(c[f := SpanOf(r)], rest)
  {
    EntryRead(c, f, SpanOf(r), name, rest);
  }

  /** The timings, each under its name. */
  function TimingBlock(t: Timers.Timing): string {
    TimingEntry("rekey_after_time", t.rekeyAfter, TimingEntry("rekey_timeout", t.rekeyTimeout, MiddleTimings(t)))
  }

  function MiddleTimings(t: Timers.Timing): string {
    TimingEntry("reject_after_time", t.rejectAfter,
      TimingEntry("keepalive_timeout", t.keepaliveTimeout, LastTimings(t)))
  }

  function LastTimings(t: Timers.Timing): string {
    TimingEntry("max_handshake_attempts", t.attempts, TimingEntry("persistent_keepalive_interval", t.persistent, ""))
  }

  lemma LastTimingsRead(c: Config, t: Timers.Timing)
    requires |c| == FIELDS && t.Valid()
    ensures ReadBlock(c, LastTimings(t)) == Ok(c[22 := SpanOf(t.attempts)][23 := SpanOf(t.persistent)])
  {
    var c1 := c[22 := SpanOf(t.attempts)];
    TimeRead(c, 22, "max_handshake_attempts", t.attempts,
             TimingEntry("persistent_keepalive_interval", t.persistent, ""));
    TimeRead(c1, 23, "persistent_keepalive_interval", t.persistent, "");
    EmptyBlock(c1[23 := SpanOf(t.persistent)]);
  }

  lemma MiddleTimingsRead(c: Config, t: Timers.Timing)
    requires |c| == FIELDS && t.Valid()
    ensures ReadBlock(c, MiddleTimings(t)) ==
      ReadBlock(c[20 := SpanOf(t.rejectAfter)][21 := SpanOf(t.keepaliveTimeout)], LastTimings(t))
  {
    TimeRead(c, 20, "reject_after_time", t.rejectAfter,
             TimingEntry("keepalive_timeout", t.keepaliveTimeout, LastTimings(t)));
    TimeRead(c[20 := SpanOf(t.rejectAfter)], 21, "keepalive_timeout", t.keepaliveTimeout, LastTimings(t));
  }

  lemma FirstTimingsRead(c: Config, t: Timers.Timing)
    requires |c| == FIELDS && t.Valid()
    ensures ReadBlock(c, TimingBlock(t)) ==
      ReadBlock(c[18 := SpanOf(t.rekeyAfter)][19 := SpanOf(t.rekeyTimeout)], MiddleTimings(t))
  {
    TimeRead(c, 18, "rekey_after_time", t.rekeyAfter, TimingEntry("rekey_timeout", t.rekeyTimeout, MiddleTimings(t)));
    TimeRead(c[18 := SpanOf(t.rekeyAfter)], 19, "rekey_timeout", t.rekeyTimeout, MiddleTimings(t));
  }

  ghost predicate Times(r: Result, t: Timers.Timing) {
    r.Ok? && |r.value| == FIELDS && TimingOf(r.value, t.persistentFixed) == t
  }

  function Timed(t: Timers.Timing): (c: Config)
    ensures |c| == FIELDS
  {
    Defaults()[18 := SpanOf(t.rekeyAfter)][19 := SpanOf(t.rekeyTimeout)][20 := SpanOf(t.rejectAfter)]
      [21 := SpanOf(t.keepaliveTimeout)][22 := SpanOf(t.attempts)][23 := SpanOf(t.persistent)]
  }

  lemma TimingsServe(t: Timers.Timing)
    ensures Times(Checked(Timed(t)), t)
  {
    DefaultHeadersApart(Timed(t));
  }

  /** A tunnel's timings written under their names are the timings it gets. */
  lemma TimingLines(t: Timers.Timing, block: string)
    requires t.Valid() && block == TimingBlock(t)
    ensures Times(Parse(block), t)
  {
    var c1 := Defaults()[18 := SpanOf(t.rekeyAfter)][19 := SpanOf(t.rekeyTimeout)];
    var c2 := c1[20 := SpanOf(t.rejectAfter)][21 := SpanOf(t.keepaliveTimeout)];
    FirstTimingsRead(Defaults(), t);
    MiddleTimingsRead(c1, t);
    LastTimingsRead(c2, t);
    ThenChecked(block, Timed(t));
    TimingsServe(t);
  }

  lemma ChainsRead(c: Config, f: nat, g: nat, a: seq<Cps.Tag>, b: seq<Cps.Tag>, first: string, second: string)
    requires |c| == FIELDS && I1 <= f <= I5 && I1 <= g <= I5 && Cps.ChainFits(a) && Cps.ChainFits(b)
    requires first == NameOf(f) && second == NameOf(g)
    ensures ReadBlock(c, Entry(first, Cps.PrintTags(a), Entry(second, Cps.PrintTags(b), ""))) ==
      Ok(c[f := Tags(a)][g := Tags(b)])
  {
    EntryRead(c, f, Tags(a), first, Entry(second, Cps.PrintTags(b), ""));
    EntryRead(c[f := Tags(a)], g, Tags(b), second, "");
    EmptyBlock(c[f := Tags(a)][g := Tags(b)]);
  }

  lemma {:induction false} NoChains(c: Config, f: nat)
    requires |c| == FIELDS && I1 <= f <= I5 + 1 && forall g :: f <= g <= I5 ==> !c[g].Tags?
    ensures InitChains(c, f) == []
    decreases I5 + 1 - f
  {
    if f <= I5 { NoChains(c, f + 1); }
  }

  lemma {:induction false} OneChain(c: Config, f: nat, g: nat)
    requires |c| == FIELDS && I1 <= f <= g <= I5 && c[g].Tags?
    requires forall i :: f <= i <= I5 && i != g ==> !c[i].Tags?
    ensures InitChains(c, f) == [c[g].chain]
    decreases I5 + 1 - f
  {
    if f < g { OneChain(c, f + 1, g); } else { NoChains(c, f + 1); }
  }

  lemma {:induction false} TwoChains(c: Config, f: nat, g: nat, h: nat)
    requires |c| == FIELDS && I1 <= f <= g < h <= I5 && c[g].Tags? && c[h].Tags?
    requires forall i :: f <= i <= I5 && i != g && i != h ==> !c[i].Tags?
    ensures InitChains(c, f) == [c[g].chain, c[h].chain]
    decreases I5 + 1 - f
  {
    if f < g { TwoChains(c, f + 1, g, h); } else { OneChain(c, f + 1, h); }
  }

  predicate Chains(r: Result, chains: seq<seq<Cps.Tag>>) {
    r.Ok? && |r.value| == FIELDS && InitChains(r.value, I1) == chains
  }

  lemma ChainsServe(c: Config, f: nat, g: nat, a: seq<Cps.Tag>, b: seq<Cps.Tag>)
    requires f < 5 && g < 5 && f != g && c == Defaults()[I1 + f := Tags(a)][I1 + g := Tags(b)]
    ensures Chains(Checked(c), if f < g then [a, b] else [b, a])
  {
    DefaultHeadersApart(c);
    if f < g { TwoChains(c, I1, I1 + f, I1 + g); } else { TwoChains(c, I1, I1 + g, I1 + f); }
  }

  function ChainName(f: nat): string
    requires f < 5
  {
    if f == 0 then "i1" else if f == 1 then "i2" else if f == 2 then "i3" else if f == 3 then "i4" else "i5"
  }

  lemma ChainNameIs(f: nat)
    requires f < 5
    ensures ChainName(f) == NameOf(I1 + f)
  {
  }

  lemma ChainsResult(f: nat, g: nat, a: seq<Cps.Tag>, b: seq<Cps.Tag>, block: string)
    requires f < 5 && g < 5 && f != g
    requires ReadBlock(Defaults(), block) == Ok(Defaults()[I1 + f := Tags(a)][I1 + g := Tags(b)])
    ensures Chains(Parse(block), if f < g then [a, b] else [b, a])
  {
    var c := Defaults()[I1 + f := Tags(a)][I1 + g := Tags(b)];
    ThenChecked(block, c);
    ChainsServe(c, f, g, a, b);
  }

  /** Of `i1` to `i5` any two, written either way round, are sent in the order of their numbers. */
  lemma ChainLines(f: nat, g: nat, a: seq<Cps.Tag>, b: seq<Cps.Tag>, first: string, second: string, block: string)
    requires f < 5 && g < 5 && f != g && Cps.ChainFits(a) && Cps.ChainFits(b)
    requires first == ChainName(f) && second == ChainName(g)
    requires block == Entry(first, Cps.PrintTags(a), Entry(second, Cps.PrintTags(b), ""))
    ensures Chains(Parse(block), if f < g then [a, b] else [b, a])
  {
    ChainNameIs(f);
    ChainNameIs(g);
    ChainsRead(Defaults(), I1 + f, I1 + g, a, b, first, second);
    ChainsResult(f, g, a, b, block);
  }
}
