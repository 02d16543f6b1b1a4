/**
 The fields of an AmneziaWG configuration: their names, what each may hold,
 and how a value is written and read.
 */
module ConfigFields {
  import opened Options
  import opened Text
  import Cps

  const FIELDS: nat := 27
  const U16_MAX: nat := 65535
  const U32_MAX: nat := 0xFFFF_FFFF

  // Fields in the order the block prints them.
  const JC: nat := 0
  const JMIN: nat := 1
  const JMAX: nat := 2
  const S1: nat := 3
  const S4: nat := 6
  const H1: nat := 7
  const H4: nat := 10
  const I1: nat := 11
  const I5: nat := 15
  const PROTECTION_KEY: nat := 16
  const ADDITION: nat := 17
  const FIRST_TIMING: nat := 18
  const LAST_TIMING: nat := 23
  const RANDOM_TRAILERS: nat := 24
  const DISABLE_COOKIES: nat := 25
  const MTU: nat := 26

  function NameOf(f: nat): string
    requires f < FIELDS
  {
    if f < 7 then
      if f == 0 then "jc" else if f == 1 then "jmin" else if f == 2 then "jmax"
      else if f == 3 then "s1" else if f == 4 then "s2" else if f == 5 then "s3" else "s4"
    else if f < 16 then
      if f == 7 then "h1" else if f == 8 then "h2" else if f == 9 then "h3" else if f == 10 then "h4"
      else if f == 11 then "i1" else if f == 12 then "i2" else if f == 13 then "i3" else if f == 14 then "i4" else "i5"
    else if f < 21 then
      if f == 16 then "header_protection_key" else if f == 17 then "content_padding_addition"
      else if f == 18 then "rekey_after_time" else if f == 19 then "rekey_timeout" else "reject_after_time"
    else
      if f == 21 then "keepalive_timeout" else if f == 22 then "max_handshake_attempts"
      else if f == 23 then "persistent_keepalive_interval" else if f == 24 then "random_trailers"
      else if f == 25 then "disable_cookies" else "mtu"
  }

  /** The characters names are made of. */
  predicate NameChar(c: char) { 'a' <= c <= 'z' || '0' <= c <= '9' || c == '_' }

  predicate PlainName(s: string) { s != [] && forall i :: 0 <= i < |s| ==> NameChar(s[i]) }

  lemma ShortNamesArePlain(f: nat)
    requires f < 16
    ensures PlainName(NameOf(f))
  {
  }

  lemma HeaderNamesArePlain()
    ensures PlainName(NameOf(16)) && PlainName(NameOf(17))
  {
  }

  lemma RekeyNamesArePlain()
    ensures PlainName(NameOf(18)) && PlainName(NameOf(19)) && PlainName(NameOf(20))
  {
  }

  lemma TimeoutNamesArePlain()
    ensures PlainName(NameOf(21)) && PlainName(NameOf(22)) && PlainName(NameOf(23))
  {
  }

  lemma OtherNamesArePlain()
    ensures PlainName(NameOf(24)) && PlainName(NameOf(25)) && PlainName(NameOf(26))
  {
  }

  lemma NamesArePlain(f: nat)
    requires f < FIELDS
    ensures PlainName(NameOf(f))
  {
    if f < 16 {
      ShortNamesArePlain(f);
    } else {
      HeaderNamesArePlain();
      RekeyNamesArePlain();
      TimeoutNamesArePlain();
      OtherNamesArePlain();
    }
  }

  /** Which field a name belongs to, told from its length and a few letters. */
  function Rank(s: string): nat {
    if |s| == 2 then
      var d := s[1] as int - '1' as int;
      if s[0] == 'j' then JC else if d < 0 then 0
      else if s[0] == 's' then S1 + d else if s[0] == 'h' then H1 + d else I1 + d
    else if |s| == 3 then MTU
    else if |s| == 4 then if s[2] == 'i' then JMIN else JMAX
    else if |s| == 13 then 19
    else if |s| == 15 then if s[0] == 'r' then 24 else 25
    else if |s| == 16 then 18
    else if |s| == 17 then if s[0] == 'r' then 20 else 21
    else if |s| == 21 then 16
    else if |s| == 22 then 22
    else if |s| == 24 then 17
    else 23
  }

  lemma RankOfName(f: nat)
    requires f < FIELDS
    ensures Rank(NameOf(f)) == f
  {
  }

  /** The field with a given name, looking from `f` on. */
  function FieldFrom(key: string, f: nat): (r: Option<nat>)
    requires f <= FIELDS
    ensures r.Some? ==> f <= r.value < FIELDS && NameOf(r.value) == key
    decreases FIELDS - f
  {
    if f == FIELDS then None else if NameOf(f) == key then Some(f) else FieldFrom(key, f + 1)
  }

  lemma {:induction false} FieldFromFinds(g: nat, f: nat)
    requires g <= f < FIELDS
    ensures FieldFrom(NameOf(f), g) == Some(f)
    decreases f - g
  {
    RankOfName(f);
    RankOfName(g);
    if g < f {
      FieldFromFinds(g + 1, f);
    }
  }

  // ---- Values ----

  datatype Kind = Word | Long | Header | Chain | Key | Addition | Timing | Flag

  function KindOf(f: nat): Kind
    requires f < FIELDS
  {
    if f <= S4 then Word
    else if f <= H4 then Header
    else if f <= I5 then Chain
    else if f == PROTECTION_KEY then Key
    else if f == ADDITION then Addition
    else if f <= LAST_TIMING then Timing
    else if f <= DISABLE_COOKIES then Flag
    else Long
  }

  /** What a field holds. `Unset` is for the optional ones. */
  datatype Setting =
    | Number(n: nat)
    | Span(lo: nat, hi: nat)
    | Tags(chain: seq<Cps.Tag>)
    | Secret(bytes: seq<nat>)
    | Switch(on: bool)
    | Unset

  predicate IsRange(s: Setting) { s.Span? && s.lo <= s.hi <= U32_MAX }

  predicate AllZero(bytes: seq<nat>) { forall i :: 0 <= i < |bytes| ==> bytes[i] == 0 }

  /** What a field of each kind can hold once it was read. */
  predicate Fits(k: Kind, s: Setting) {
    match k
    case Word => s.Number? && s.n <= U16_MAX
    case Long => s.Number? && s.n <= U32_MAX
    case Header => IsRange(s)
    case Timing => IsRange(s)
    case Addition => s.Unset? || (IsRange(s) && s != Span(0, 0))
    case Chain => s.Unset? || (s.Tags? && Cps.ChainFits(s.chain))
    case Key => s.Unset? || (s.Secret? && |s.bytes| == 32 && AreBytes(s.bytes) && !AllZero(s.bytes))
    case Flag => s.Switch?
  }

  function Default(f: nat): (s: Setting)
    requires f < FIELDS
    ensures Fits(KindOf(f), s)
  {
    match KindOf(f)
    case Word => Number(0)
    case Long => Number(1420)
    case Header => Span(f - H1 + 1, f - H1 + 1)
    case Timing => Span(0, 0)
    case Flag => Switch(false)
    case _ => Unset
  }

  // ---- Reading ----

  function ParsePart(part: string): Option<nat> {
    var p := Trim(part);
    if p == [] then None else ParseUnsigned(p, U32_MAX)
  }

  /** `a` or `a-b`. */
  function ParseRange(value: string): (r: Option<Setting>)
    ensures r.Some? ==> IsRange(r.value)
  {
    var t := Trim(value);
    if t == [] then None else
    var parts := Split(t, '-');
    if |parts| > 2 then None else
    var lo := ParsePart(parts[0]);
    var hi := if |parts| == 2 then ParsePart(parts[1]) else lo;
    if lo.None? || hi.None? || hi.value < lo.value then None else Some(Span(lo.value, hi.value))
  }

  function ParseFlag(v: string): Option<Setting> {
    if v in {"1", "t", "T", "true", "TRUE", "True", "on", "ON", "On"} then Some(Switch(true))
    else if v in {"0", "f", "F", "false", "FALSE", "False", "off", "OFF", "Off"} then Some(Switch(false))
    else None
  }

  function ParseNumber(v: string, max: nat): Option<Setting> {
    match ParseUnsigned(v, max)
    case None => None
    case Some(n) => Some(Number(n))
  }

  function ParseKey(v: string): Option<Setting> {
    var r := Unhex(v);
    if r.None? || |r.value| != 32 then None
    else if AllZero(r.value) then Some(Unset)
    else Some(Secret(r.value))
  }

  /** A setting, or that the text is no such setting. */
  type Reading = Outcome<Setting, ()>

  function Read(r: Option<Setting>): Reading {
    match r
    case None => Err(())
    case Some(s) => Ok(s)
  }

  function ParseTags(v: string): Reading {
    match Cps.ParseChain(v)
    case Err(_) => Err(())
    case Panics => Panics
    case Ok(chain) => Ok(Tags(chain))
  }

  /** Reads a value for a field of the given kind. */
  function ParseValue(k: Kind, v: string): Reading {
    match k
    case Word => Read(ParseNumber(v, U16_MAX))
    case Long => Read(ParseNumber(v, U32_MAX))
    case Header => Read(ParseRange(v))
    case Timing => Read(ParseRange(v))
    case Addition =>
      var r := ParseRange(v);
      Read(if r == Some(Span(0, 0)) then Some(Unset) else r)
    case Chain => ParseTags(v)
    case Key => Read(ParseKey(v))
    case Flag => Read(ParseFlag(v))
  }

  lemma ValuePanics(k: Kind, v: string)
    ensures ParseValue(k, v).Panics? <==> k == Chain && Cps.ChainBreaks(v)
  {
    Cps.ChainPanics(v);
  }

  lemma ReadFits(k: Kind, v: string)
    ensures ParseValue(k, v).Ok? ==> Fits(k, ParseValue(k, v).value)
  {
    Cps.ChainReturned(v);
  }

  // ---- Writing ----

  function PrintRange(lo: nat, hi: nat): string {
    if lo == hi then Decimal(lo) else Decimal(lo) + "-" + Decimal(hi)
  }

  predicate Writable(s: Setting) {
    match s
    case Unset => false
    case Tags(chain) => Cps.ChainFits(chain)
    case Secret(bytes) => AreBytes(bytes)
    case _ => true
  }

  function PrintValue(s: Setting): string
    requires Writable(s)
  {
    match s
    case Number(n) => Decimal(n)
    case Span(lo, hi) => PrintRange(lo, hi)
    case Tags(chain) => Cps.PrintTags(chain)
    case Secret(bytes) => Hex(bytes)
    case Switch(on) => if on then "1" else "0"
  }

  /** Ink at both ends and no line break: what a line may end in. */
  predicate OneLine(s: string) { Tight(s) && '\n' !in s }

  lemma DecimalIsTight(n: nat)
    ensures OneLine(Decimal(n)) && '-' !in Decimal(n)
  {
  }

  lemma PartParses(n: nat)
    requires n <= U32_MAX
    ensures ParsePart(Decimal(n)) == Some(n)
  {
    DecimalIsTight(n);
    TrimTight(Decimal(n));
    DecimalParses(n, U32_MAX);
  }

  lemma RangeParses(lo: nat, hi: nat)
    requires lo <= hi <= U32_MAX
    ensures OneLine(PrintRange(lo, hi)) && ParseRange(PrintRange(lo, hi)) == Some(Span(lo, hi))
  {
    DecimalIsTight(lo);
    DecimalIsTight(hi);
    PartParses(lo);
    PartParses(hi);
    TrimTight(PrintRange(lo, hi));
    if lo == hi {
      SplitWhole(Decimal(lo), '-');
    } else {
      assert PrintRange(lo, hi) == Decimal(lo) + ['-'] + Decimal(hi);
      SplitFirst(Decimal(lo), '-', Decimal(hi));
      SplitWhole(Decimal(hi), '-');
    }
  }

  lemma {:induction false} TagsAreOneLine(tags: seq<Cps.Tag>)
    requires forall i :: 0 <= i < |tags| ==> Cps.TagFits(tags[i])
    ensures '\n' !in Cps.PrintTags(tags)
    ensures tags != [] ==> Tight(Cps.PrintTags(tags))
  {
    if tags != [] {
      TagsAreOneLine(tags[1..]);
      Cps.InnerIsPlain(tags[0]);
      var s, rest := Cps.PrintTag(tags[0]), Cps.PrintTags(tags[1..]);
      assert s[0] == '<' && s[|s| - 1] == '>' && '\n' !in s;
      assert (s + rest)[0] == '<';
      assert rest == [] ==> s + rest == s;
    }
  }

  /** A written value reads back as itself. */
  lemma ValueParses(k: Kind, s: Setting)
    requires Fits(k, s) && !s.Unset?
    ensures Writable(s) && OneLine(PrintValue(s)) && ParseValue(k, PrintValue(s)) == Ok(s)
  {
    match s
    case Number(n) =>
      DecimalIsTight(n);
      DecimalParses(n, if k == Word then U16_MAX else U32_MAX);
    case Span(lo, hi) => RangeParses(lo, hi);
    case Tags(chain) =>
      TagsAreOneLine(chain);
      Cps.ChainPrintParse(chain);
    case Secret(bytes) =>
      UnhexHex(bytes);
      assert IsHex(Hex(bytes)[0]) && IsHex(Hex(bytes)[63]);
    case Switch(on) =>
  }
}
