/**
 Custom packet signatures: chains of tags such as `<b 0x0102><r 16><t>`, their
 parser, their printer and the packets they generate.
 */
module Cps {
  import opened Options
  import opened Text

  const MAX_RANDOM_LEN: nat := 65535
  const USIZE_MAX: nat := 0xFFFF_FFFF_FFFF_FFFF

  datatype Error = InvalidCps | UnsupportedCpsTag | CpsValueOutOfRange

  type Result<+T> = Outcome<T, Error>

  datatype Tag =
    | Bytes(bytes: seq<nat>)
    | Timestamp
    | RandomBytes(len: nat)
    | RandomChars(len: nat)
    | RandomDigits(len: nat)
    | Data
    | DataString
    | DataSize(len: nat)

  /** The tags the parser can return. */
  predicate TagFits(t: Tag) {
    match t
    case Bytes(bytes) => bytes != [] && AreBytes(bytes)
    case RandomBytes(len) => len <= MAX_RANDOM_LEN
    case RandomChars(len) => len <= MAX_RANDOM_LEN
    case RandomDigits(len) => len <= MAX_RANDOM_LEN
    case DataSize(len) => len <= MAX_RANDOM_LEN
    case _ => true
  }

  predicate ChainFits(chain: seq<Tag>) {
    chain != [] && forall i :: 0 <= i < |chain| ==> TagFits(chain[i])
  }

  // ---- Words of a tag ----

  function FirstSpace(s: string): (n: nat)
    ensures n <= |s|
    ensures n < |s| ==> IsSpace(s[n])
    ensures forall i :: 0 <= i < n ==> !IsSpace(s[i])
  {
    if s == [] || IsSpace(s[0]) then 0 else 1 + FirstSpace(s[1..])
  }

  /** The words of a text, at white space. */
  function Words(s: string): seq<string>
    decreases |s|
  {
    var t := TrimLeft(s);
    if t == [] then [] else
    var n := FirstSpace(t);
    [t[..n]] + Words(t[n..])
  }

  /** A word: some ink and nothing else. */
  predicate Solid(s: string) { s != [] && forall i :: 0 <= i < |s| ==> !IsSpace(s[i]) }

  lemma {:induction false} FirstSpaceAfter(a: string, b: string)
    requires forall i :: 0 <= i < |a| ==> !IsSpace(a[i])
    requires b == [] || IsSpace(b[0])
    ensures FirstSpace(a + b) == |a|
  {
    if a == [] {
      assert a + b == b;
    } else {
      FirstSpaceAfter(a[1..], b);
      assert (a + b)[1..] == a[1..] + b;
    }
  }

  lemma OneWord(a: string)
    requires Solid(a)
    ensures Words(a) == [a]
  {
    FirstSpaceAfter(a, []);
    assert a + [] == a;
    assert a[..|a|] == a && a[|a|..] == [];
    assert Words([]) == [];
  }

  lemma TwoWords(a: string, b: string)
    requires Solid(a) && Solid(b)
    ensures Words(a + " " + b) == [a, b]
  {
    var s := a + " " + b;
    assert s == a + (" " + b);
    FirstSpaceAfter(a, " " + b);
    assert s[..|a|] == a && s[|a|..] == " " + b;
    assert (" " + b)[1..] == b;
    assert TrimLeft(" " + b) == b;
    OneWord(b);
    assert Words(" " + b) == Words(b);
  }

  // ---- Parsing ----

  function ParseLen(arg: Option<string>): Result<nat> {
    if arg.None? then Err(InvalidCps) else
    match ParseUnsigned(arg.value, USIZE_MAX)
    case None => Err(InvalidCps)
    case Some(n) => if n > MAX_RANDOM_LEN then Err(CpsValueOutOfRange) else Ok(n)
  }

  /** A byte from the digits of a slice of two bytes, which may be a single character. */
  function PairValue(pair: string): (r: Option<nat>)
    ensures r.Some? ==> r.value < 256
  {
    if |pair| == 2 then HexByte(pair[0], pair[1], true) else None
  }

  function Push(first: nat, rest: Result<seq<nat>>): Result<seq<nat>> {
    if rest.Ok? then Ok([first] + rest.value) else rest
  }

  /** The bytes written in hexadecimal from a byte offset on; each pair is sliced out of the text. */
  function HexFrom(hex: string, at: nat): (r: Result<seq<nat>>)
    ensures r.Ok? ==> AreBytes(r.value) && (at < ByteLen(hex) ==> r.value != [])
    decreases ByteLen(hex) - at
  {
    if at >= ByteLen(hex) then Ok([]) else
    match Slice(hex, at, at + 2)
    case None => Panics
    case Some(pair) =>
      match PairValue(pair)
      case None => Err(InvalidCps)
      case Some(first) => Push(first, HexFrom(hex, at + 2))
  }

  function ParseHex(hex: string): Result<seq<nat>> {
    if hex == [] || ByteLen(hex) % 2 != 0 then Err(InvalidCps) else HexFrom(hex, 0)
  }

  function ParseBytes(arg: Option<string>): Result<Tag> {
    if arg.None? || |arg.value| < 2 || arg.value[..2] != "0x" then Err(InvalidCps) else
    match ParseHex(arg.value[2..])
    case Err(e) => Err(e)
    case Panics => Panics
    case Ok(bytes) => Ok(Bytes(bytes))
  }

  function NoArg(arg: Option<string>, t: Tag): Result<Tag> {
    if arg.Some? then Err(InvalidCps) else Ok(t)
  }

  function Sized(r: Result<nat>, make: nat -> Tag): Result<Tag> {
    match r
    case Err(e) => Err(e)
    case Panics => Panics
    case Ok(n) => Ok(make(n))
  }

  function ParseNamed(name: string, arg: Option<string>): Result<Tag> {
    if name == "b" then ParseBytes(arg)
    else if name == "t" then NoArg(arg, Timestamp)
    else if name == "r" then Sized(ParseLen(arg), (n: nat) => RandomBytes(n))
    else if name == "rc" then Sized(ParseLen(arg), (n: nat) => RandomChars(n))
    else if name == "rd" then Sized(ParseLen(arg), (n: nat) => RandomDigits(n))
    else if name == "d" then NoArg(arg, Data)
    else if name == "ds" then NoArg(arg, DataString)
    else if name == "dz" then Sized(ParseLen(arg), (n: nat) => DataSize(n))
    else Err(UnsupportedCpsTag)
  }

  function ParseTag(text: string): Result<Tag> {
    var w := Words(text);
    if |w| == 0 || |w| > 2 then Err(InvalidCps)
    else ParseNamed(w[0], if |w| == 2 then Some(w[1]) else None)
  }

  function SkipSpace(s: string): (r: string)
    ensures |r| <= |s|
  {
    if s != [] && IsAsciiSpace(s[0]) then SkipSpace(s[1..]) else s
  }

  /** The text of a tag, and what follows it. */
  datatype Cut = Cut(text: string, rest: string)

  function NextTag(s: string): (r: Option<Cut>)
    ensures r.Some? ==> |r.value.rest| < |s|
  {
    if s == [] || s[0] != '<' then None else
    match Find(s[1..], '>')
    case None => None
    case Some(n) => Some(Cut(Trim(s[1..][..n]), s[1..][n + 1..]))
  }

  /** The tags of a text, in order, or the first thing wrong with it. */
  function ParseTags(s: string): Result<seq<Tag>>
    decreases |s|
  {
    var t := SkipSpace(s);
    if t == [] then Ok([]) else
    match NextTag(t)
    case None => Err(InvalidCps)
    case Some(Cut(text, rest)) => Prepend(ParseTag(text), ParseTags(rest))
  }

  function Prepend(first: Result<Tag>, rest: Result<seq<Tag>>): Result<seq<Tag>> {
    match first
    case Err(e) => Err(e)
    case Panics => Panics
    case Ok(tag) => if rest.Ok? then Ok([tag] + rest.value) else rest
  }

  function ParseChain(s: string): Result<seq<Tag>> {
    var tags := ParseTags(s);
    if tags == Ok([]) then Err(InvalidCps) else tags
  }

  // ---- Printing ----

  function Inner(t: Tag): string
    requires TagFits(t)
  {
    match t
    case Bytes(bytes) => "b" + " " + ("0x" + Hex(bytes))
    case Timestamp => "t"
    case RandomBytes(len) => "r" + " " + Decimal(len)
    case RandomChars(len) => "rc" + " " + Decimal(len)
    case RandomDigits(len) => "rd" + " " + Decimal(len)
    case Data => "d"
    case DataString => "ds"
    case DataSize(len) => "dz" + " " + Decimal(len)
  }

  function PrintTag(t: Tag): string
    requires TagFits(t)
  {
    "<" + Inner(t) + ">"
  }

  function PrintTags(tags: seq<Tag>): string
    requires forall i :: 0 <= i < |tags| ==> TagFits(tags[i])
  {
    if tags == [] then [] else PrintTag(tags[0]) + PrintTags(tags[1..])
  }

  // ---- Print and parse are inverse ----

  /** Characters a printed tag is made of, between its brackets. */
  predicate Plain(c: char) { 'a' <= c <= 'z' || IsHex(c) || c == ' ' }

  lemma DecimalIsSolid(n: nat)
    ensures Solid(Decimal(n)) && forall i :: 0 <= i < |Decimal(n)| ==> Plain(Decimal(n)[i])
  {
  }

  lemma HexIsSolid(bytes: seq<nat>)
    requires AreBytes(bytes)
    ensures var s := "0x" + Hex(bytes); Solid(s) && forall i :: 0 <= i < |s| ==> Plain(s[i])
  {
  }

  lemma NumberedTag(name: string, len: nat, make: nat -> Tag)
    requires Solid(name) && len <= MAX_RANDOM_LEN
    ensures Words(name + " " + Decimal(len)) == [name, Decimal(len)]
    ensures Sized(ParseLen(Some(Decimal(len))), make) == Ok(make(len))
  {
    DecimalIsSolid(len);
    TwoWords(name, Decimal(len));
    DecimalParses(len, USIZE_MAX);
  }

  lemma HexPairParses(bytes: seq<nat>, k: nat, s: string, at: nat)
    requires AreBytes(bytes) && k < |bytes| && s == Hex(bytes) && at == 2 * k
    ensures Slice(s, at, at + 2).Some? && PairValue(Slice(s, at, at + 2).value) == Some(bytes[k])
  {
    AsciiPair(s, at);
    HexPairAt(bytes, k);
    ByteRoundTrip(bytes[k], true);
  }

  lemma {:induction false} HexParses(bytes: seq<nat>, k: nat, s: string)
    requires AreBytes(bytes) && k <= |bytes| && s == Hex(bytes)
    ensures ByteLen(s) == 2 * |bytes| && HexFrom(s, 2 * k) == Ok(bytes[k..])
    decreases |bytes| - k
  {
    AsciiOffsets(s, 0);
    if k < |bytes| {
      HexPairParses(bytes, k, s, 2 * k);
      HexParses(bytes, k + 1, s);
      assert 2 * (k + 1) == 2 * k + 2;
      assert bytes[k..] == [bytes[k]] + bytes[k + 1..];
    } else {
      assert bytes[k..] == [];
    }
  }

  lemma BytesParse(bytes: seq<nat>, s: string)
    requires bytes != [] && AreBytes(bytes) && s == Hex(bytes)
    ensures ParseBytes(Some("0x" + s)) == Ok(Bytes(bytes))
  {
    HexParses(bytes, 0, s);
    assert ("0x" + s)[..2] == "0x" && ("0x" + s)[2..] == s;
    assert bytes[0..] == bytes;
  }

  lemma BytesTag(bytes: seq<nat>)
    requires bytes != [] && AreBytes(bytes)
    ensures Words("b" + " " + ("0x" + Hex(bytes))) == ["b", "0x" + Hex(bytes)]
    ensures ParseBytes(Some("0x" + Hex(bytes))) == Ok(Bytes(bytes))
  {
    HexIsSolid(bytes);
    TwoWords("b", "0x" + Hex(bytes));
    BytesParse(bytes, Hex(bytes));
  }

  /** Each name reaches its own tag. */
  lemma Dispatch(arg: Option<string>)
    ensures ParseNamed("b", arg) == ParseBytes(arg)
    ensures ParseNamed("t", arg) == NoArg(arg, Timestamp)
    ensures ParseNamed("d", arg) == NoArg(arg, Data)
    ensures ParseNamed("ds", arg) == NoArg(arg, DataString)
  {
  }

  lemma DispatchSized(arg: Option<string>)
    ensures ParseNamed("r", arg) == Sized(ParseLen(arg), (n: nat) => RandomBytes(n))
    ensures ParseNamed("rc", arg) == Sized(ParseLen(arg), (n: nat) => RandomChars(n))
    ensures ParseNamed("rd", arg) == Sized(ParseLen(arg), (n: nat) => RandomDigits(n))
    ensures ParseNamed("dz", arg) == Sized(ParseLen(arg), (n: nat) => DataSize(n))
  {
  }

  lemma NumberedTagParses(name: string, len: nat, make: nat -> Tag)
    requires Solid(name) && len <= MAX_RANDOM_LEN
    requires ParseNamed(name, Some(Decimal(len))) == Sized(ParseLen(Some(Decimal(len))), make)
    ensures ParseTag(name + " " + Decimal(len)) == Ok(make(len))
  {
    NumberedTag(name, len, make);
  }

  lemma PlainTagParses(name: string, t: Tag)
    requires Solid(name) && ParseNamed(name, None) == NoArg(None, t)
    ensures ParseTag(name) == Ok(t)
  {
    OneWord(name);
  }

  lemma BytesTagParses(bytes: seq<nat>)
    requires bytes != [] && AreBytes(bytes)
    ensures ParseTag("b" + " " + ("0x" + Hex(bytes))) == Ok(Bytes(bytes))
  {
    BytesTag(bytes);
    Dispatch(Some("0x" + Hex(bytes)));
  }

  lemma TagParses(t: Tag)
    requires TagFits(t)
    ensures ParseTag(Inner(t)) == Ok(t)
  {
    Dispatch(None);
    match t
    case Bytes(bytes) => BytesTagParses(bytes);
    case Timestamp => PlainTagParses("t", t);
    case Data => PlainTagParses("d", t);
    case DataString => PlainTagParses("ds", t);
    case RandomBytes(len) =>
      DispatchSized(Some(Decimal(len)));
      NumberedTagParses("r", len, (n: nat) => RandomBytes(n));
    case RandomChars(len) =>
      DispatchSized(Some(Decimal(len)));
      NumberedTagParses("rc", len, (n: nat) => RandomChars(n));
    case RandomDigits(len) =>
      DispatchSized(Some(Decimal(len)));
      NumberedTagParses("rd", len, (n: nat) => RandomDigits(n));
    case DataSize(len) =>
      DispatchSized(Some(Decimal(len)));
      NumberedTagParses("dz", len, (n: nat) => DataSize(n));
  }

  lemma InnerIsPlain(t: Tag)
    requires TagFits(t)
    ensures Tight(Inner(t)) && forall i :: 0 <= i < |Inner(t)| ==> Plain(Inner(t)[i])
  {
  }

  lemma FirstTagIsCut(inner: string, rest: string)
    requires Tight(inner) && '>' !in inner
    ensures var s := "<" + inner + ">" + rest; SkipSpace(s) == s && NextTag(s) == Some(Cut(inner, rest))
  {
    var s := "<" + inner + ">" + rest;
    assert s[0] == '<';
    assert s[1..] == inner + ['>'] + rest;
    FindIn(inner, '>', rest);
    assert s[1..][..|inner|] == inner;
    assert s[1..][|inner| + 1..] == rest;
    TrimTight(inner);
  }

  lemma FirstTagParses(t: Tag, rest: string)
    requires TagFits(t)
    ensures ParseTags(PrintTag(t) + rest) == Prepend(Ok(t), ParseTags(rest))
  {
    InnerIsPlain(t);
    FirstTagIsCut(Inner(t), rest);
    TagParses(t);
  }

  lemma {:induction false} TagsParse(tags: seq<Tag>)
    requires forall i :: 0 <= i < |tags| ==> TagFits(tags[i])
    ensures ParseTags(PrintTags(tags)) == Ok(tags)
  {
    if tags != [] {
      TagsParse(tags[1..]);
      FirstTagParses(tags[0], PrintTags(tags[1..]));
      assert tags == [tags[0]] + tags[1..];
    }
  }

  /** Every chain the parser can return prints to a text that parses back to it. */
  lemma ChainPrintParse(chain: seq<Tag>)
    requires ChainFits(chain)
    ensures ParseChain(PrintTags(chain)) == Ok(chain)
  {
    TagsParse(chain);
  }

  lemma TagReturned(text: string)
    ensures ParseTag(text).Ok? ==> TagFits(ParseTag(text).value)
  {
  }

  /** And those are exactly the chains it returns. */
  lemma {:induction false} ChainReturned(s: string)
    ensures ParseTags(s).Ok? ==>
      forall i :: 0 <= i < |ParseTags(s).value| ==> TagFits(ParseTags(s).value[i])
    ensures ParseChain(s).Ok? ==> ChainFits(ParseChain(s).value)
    decreases |s|
  {
    var t := SkipSpace(s);
    if NextTag(t).Some? {
      TagReturned(NextTag(t).value.text);
      ChainReturned(NextTag(t).value.rest);
    }
  }

  // ---- When parsing panics ----

  /** The two bytes at `at` are a character pair with a value. */
  predicate GoodPair(hex: string, at: nat) {
    Slice(hex, at, at + 2).Some? && PairValue(Slice(hex, at, at + 2).value).Some?
  }

  /** Reached through good pairs only, the slice at `at` ends inside a character. */
  predicate CutsAt(hex: string, from: nat, at: nat) {
    && from <= at < ByteLen(hex) && (at - from) % 2 == 0
    && CharAt(hex, at + 2).None?
    && forall k :: from <= k < at && (k - from) % 2 == 0 ==> GoodPair(hex, k)
  }

  lemma {:induction false} HexPanics(hex: string, at: nat)
    requires CharAt(hex, at).Some?
    ensures HexFrom(hex, at).Panics? <==> exists k :: CutsAt(hex, at, k)
    decreases ByteLen(hex) - at
  {
    if at < ByteLen(hex) {
      if CharAt(hex, at + 2).None? {
        assert CutsAt(hex, at, at);
      } else if GoodPair(hex, at) {
        var next := at + 2;
        HexPanics(hex, next);
        if k: nat :| CutsAt(hex, next, k) {
          CutsBefore(hex, at, k);
        }
        if k: nat :| CutsAt(hex, at, k) {
          assert k != at;
          CutsAfter(hex, at, k);
        }
      } else {
        forall k: nat ensures !CutsAt(hex, at, k) {
          assert CutsAt(hex, at, k) && k > at ==> GoodPair(hex, at);
        }
      }
    }
  }

  lemma CutsBefore(hex: string, at: nat, k: nat)
    requires GoodPair(hex, at) && CutsAt(hex, at + 2, k)
    ensures CutsAt(hex, at, k)
  {
    forall j | at <= j < k && (j - at) % 2 == 0 ensures GoodPair(hex, j) {
      assert j == at || (at + 2 <= j && (j - (at + 2)) % 2 == 0);
    }
  }

  lemma CutsAfter(hex: string, at: nat, k: nat)
    requires CutsAt(hex, at, k) && k != at
    ensures CutsAt(hex, at + 2, k)
  {
    forall j | at + 2 <= j < k && (j - (at + 2)) % 2 == 0 ensures GoodPair(hex, j) {
      assert (j - at) % 2 == 0;
    }
  }

  /** The argument of a bytes tag on which the code panics. */
  ghost predicate Breaks(arg: string) {
    && |arg| > 2 && arg[..2] == "0x"
    && ByteLen(arg[2..]) % 2 == 0
    && exists k :: CutsAt(arg[2..], 0, k)
  }

  /**
   A tag panics exactly when it is a bytes tag with one argument whose digits
   have an even number of bytes, and some even byte offset reached before any
   bad pair is inside a character.
   */
  lemma TagPanics(text: string)
    ensures ParseTag(text).Panics? <==> |Words(text)| == 2 && Words(text)[0] == "b" && Breaks(Words(text)[1])
  {
    var w := Words(text);
    if |w| == 2 && |w[1]| >= 2 && w[1][..2] == "0x" {
      HexPanics(w[1][2..], 0);
    }
  }

  /** The text of the n-th tag. */
  function TagText(s: string, n: nat): Option<string>
    decreases |s|
  {
    match NextTag(SkipSpace(s))
    case None => None
    case Some(Cut(text, rest)) => if n == 0 then Some(text) else TagText(rest, n - 1)
  }

  /** The n-th tag panics and those before it are sound. */
  ghost predicate ChainBreaksAt(s: string, n: nat) {
    && TagText(s, n).Some? && ParseTag(TagText(s, n).value).Panics?
    && forall m :: 0 <= m < n ==> TagText(s, m).Some? && ParseTag(TagText(s, m).value).Ok?
  }

  lemma BreaksLater(s: string, cut: Cut, n: nat)
    requires NextTag(SkipSpace(s)) == Some(cut) && ParseTag(cut.text).Ok?
    ensures ChainBreaksAt(s, n + 1) <==> ChainBreaksAt(cut.rest, n)
  {
    assert TagText(s, 0) == Some(cut.text);
    forall m: nat ensures TagText(s, m + 1) == TagText(cut.rest, m) {}
    if ChainBreaksAt(s, n + 1) {
      forall m | 0 <= m < n ensures TagText(cut.rest, m).Some? && ParseTag(TagText(cut.rest, m).value).Ok? {
        assert TagText(s, m + 1).Some? && ParseTag(TagText(s, m + 1).value).Ok?;
      }
    }
    if ChainBreaksAt(cut.rest, n) {
      forall m | 0 <= m < n + 1 ensures TagText(s, m).Some? && ParseTag(TagText(s, m).value).Ok? {
        if m > 0 { assert TagText(s, m) == TagText(cut.rest, m - 1); }
      }
    }
  }

  ghost predicate ChainBreaks(s: string) { exists n: nat :: ChainBreaksAt(s, n) }

  lemma BreaksFirst(s: string, cut: Cut)
    requires NextTag(SkipSpace(s)) == Some(cut) && !ParseTag(cut.text).Ok?
    ensures ChainBreaks(s) <==> ParseTag(cut.text).Panics?
  {
    assert TagText(s, 0) == Some(cut.text);
    if ParseTag(cut.text).Panics? {
      assert ChainBreaksAt(s, 0);
    }
  }

  lemma BreaksAfterFirst(s: string, cut: Cut)
    requires NextTag(SkipSpace(s)) == Some(cut) && ParseTag(cut.text).Ok?
    ensures ChainBreaks(s) <==> ChainBreaks(cut.rest)
  {
    if ChainBreaks(cut.rest) {
      var n: nat :| ChainBreaksAt(cut.rest, n);
      BreaksLater(s, cut, n);
    }
    if ChainBreaks(s) {
      var n: nat :| ChainBreaksAt(s, n);
      assert TagText(s, 0) == Some(cut.text);
      BreaksLater(s, cut, n - 1);
    }
  }

  lemma TagsStep(s: string, cut: Cut, first: Result<Tag>)
    requires NextTag(SkipSpace(s)) == Some(cut) && first == ParseTag(cut.text)
    ensures ParseTags(s).Panics? <==> first.Panics? || (first.Ok? && ParseTags(cut.rest).Panics?)
  {
  }

  /** A chain panics exactly when a tag does before any tag is rejected. */
  lemma {:induction false} ChainPanics(s: string)
    ensures ParseTags(s).Panics? <==> ChainBreaks(s)
    ensures ParseChain(s).Panics? <==> ChainBreaks(s)
    decreases |s|
  {
    var next := NextTag(SkipSpace(s));
    if next.Some? {
      var first := ParseTag(next.value.text);
      ChainPanics(next.value.rest);
      TagsStep(s, next.value, first);
      if first.Ok? {
        BreaksAfterFirst(s, next.value);
      } else {
        BreaksFirst(s, next.value);
      }
    }
  }

  lemma InnerPanics(arg: string)
    requires Solid(arg) && Breaks(arg)
    ensures ParseTag("b" + " " + arg).Panics?
  {
    TwoWords("b", arg);
    TagPanics("b" + " " + arg);
  }

  /** A chain of one bytes tag. */
  lemma OneTagPanics(arg: string)
    requires Solid(arg) && '>' !in arg && Breaks(arg)
    ensures ParseChain("<b " + arg + ">").Panics?
  {
    var inner := "b" + " " + arg;
    var s := "<" + inner + ">" + "";
    FirstTagIsCut(inner, "");
    InnerPanics(arg);
    TagsStep(s, Cut(inner, ""), ParseTag(inner));
    assert s == "<b " + arg + ">";
  }

  /** Four bytes of digits, of which the second and third are one character. */
  lemma TwoByteCharacterBreaks()
    ensures Breaks("0x1\U{00E9}2")
  {
    var hex := "1\U{00E9}2";
    assert "0x1\U{00E9}2"[2..] == hex;
    assert hex[1..] == "\U{00E9}2" && hex[1..][1..] == "2" && hex[1..][1..][1..] == "";
    assert Width(hex[0]) == 1 && Width(hex[1]) == 2 && Width(hex[2]) == 1;
    assert ByteLen(hex) == 4;
    assert CharAt(hex, 2) == None;
    assert CutsAt(hex, 0, 0);
  }

  function Accented(): string { "<b 0x1\U{00E9}2>" }

  lemma AccentedText(s: string, arg: string)
    requires s == Accented() && arg == "0x1\U{00E9}2"
    ensures Tight(s) && '\n' !in s && s == "<b " + arg + ">" && Solid(arg) && '>' !in arg
  {
  }

  lemma AccentBreaks(s: string)
    requires s == Accented()
    ensures ChainBreaks(s) && Tight(s) && '\n' !in s
  {
    var arg := "0x1\U{00E9}2";
    AccentedText(s, arg);
    TwoByteCharacterBreaks();
    OneTagPanics(arg);
    ChainPanics(s);
  }

  // ---- The parser object ----

  /** The digits of a bytes tag, pair by pair. */
  method DecodeHex(hex: string) returns (r: Result<seq<nat>>)
    ensures r == ParseHex(hex)
  {
    var len := ByteLen(hex);
    if hex == [] || len % 2 != 0 {
      return Err(InvalidCps);
    }
    var bytes: seq<nat> := [];
    var at := 0;
    JoinedNothing(HexFrom(hex, 0));
    while at < len
      invariant HexFrom(hex, 0) == Joined(bytes, HexFrom(hex, at))
      decreases len - at
    {
      var pair := Slice(hex, at, at + 2);
      if pair.None? {
        return Panics;
      }
      var byte := PairValue(pair.value);
      if byte.None? {
        return Err(InvalidCps);
      }
      JoinedPush(bytes, byte.value, HexFrom(hex, at + 2));
      bytes := bytes + [byte.value];
      at := at + 2;
    }
    assert bytes + [] == bytes;
    r := Ok(bytes);
  }

  ghost function Joined(bytes: seq<nat>, rest: Result<seq<nat>>): Result<seq<nat>> {
    if rest.Ok? then Ok(bytes + rest.value) else rest
  }

  lemma JoinedNothing(r: Result<seq<nat>>)
    ensures Joined([], r) == r
  {
    if r.Ok? {
      assert [] + r.value == r.value;
    }
  }

  lemma JoinedPush(bytes: seq<nat>, first: nat, rest: Result<seq<nat>>)
    ensures Joined(bytes, Push(first, rest)) == Joined(bytes + [first], rest)
  {
    if rest.Ok? {
      assert bytes + ([first] + rest.value) == bytes + [first] + rest.value;
    }
  }

  class CpsParser {
    const input: string
    var offset: nat

    ghost predicate Valid()
      reads this
    {
      offset <= |input|
    }

    /** What is still to be read. */
    ghost function Rest(): string
      reads this
      requires Valid()
    {
      input[offset..]
    }

    constructor (input: string)
      ensures Valid() && this.input == input && offset == 0
    {
      this.input := input;
      offset := 0;
    }

    method SkipWhitespace() returns (more: bool)
      requires Valid()
      modifies this
      ensures Valid() && offset >= old(offset)
      ensures Rest() == SkipSpace(old(Rest())) && more == (Rest() != [])
    {
      while offset < |input| && IsAsciiSpace(input[offset])
        invariant Valid() && offset >= old(offset) && SkipSpace(Rest()) == SkipSpace(old(Rest()))
      {
        assert input[offset..][1..] == input[offset + 1..];
        offset := offset + 1;
      }
      more := offset < |input|;
    }

    /** Reads the text of one tag. */
    method ReadTag() returns (text: Option<string>)
      requires Valid() && Rest() != []
      modifies this
      ensures Valid() && (text.Some? ==> offset > old(offset))
      ensures NextTag(old(Rest())) == if text.Some? then Some(Cut(text.value, Rest())) else None
    {
      ghost var s := Rest();
      if input[offset] != '<' {
        return None;
      }
      var start := offset + 1;
      assert s[1..] == input[start..];
      var close := Find(input[start..], '>');
      if close.None? {
        return None;
      }
      var end := start + close.value;
      SliceOfRest(start, close.value);
      text := Some(Trim(input[start..end]));
      offset := end + 1;
    }

    lemma SliceOfRest(start: nat, n: nat)
      requires start + n < |input|
      ensures input[start..][..n] == input[start..start + n]
      ensures input[start..][n + 1..] == input[start + n + 1..]
    {
    }

    /** The tag loop; what it returns is what the text denotes. */
    method Parse() returns (r: Result<seq<Tag>>)
      requires Valid() && offset == 0
      modifies this
      ensures r == ParseChain(input)
    {
      var tags: seq<Tag> := [];
      ghost var whole := ParseTags(input);
      assert input[0..] == input;
      SkipIsTransparent(input);
      AppendNothing(whole);
      var more := SkipWhitespace();
      while more
        invariant Valid() && more == (Rest() != []) && SkipSpace(Rest()) == Rest()
        invariant whole == Append(tags, ParseTags(Rest()))
        decreases |input| - offset
      {
        var text := ReadTag();
        if text.None? {
          return Err(InvalidCps);
        }
        var tag := ParseTag(text.value);
        if !tag.Ok? {
          return if tag.Err? then Err(tag.error) else Panics;
        }
        AppendPrepend(tags, tag.value, ParseTags(Rest()));
        tags := tags + [tag.value];
        SkipIsTransparent(Rest());
        more := SkipWhitespace();
      }
      assert tags + [] == tags;
      r := if tags == [] then Err(InvalidCps) else Ok(tags);
    }
  }

  lemma AppendNothing(r: Result<seq<Tag>>)
    ensures Append([], r) == r
  {
    if r.Ok? {
      assert [] + r.value == r.value;
    }
  }

  ghost function Append(tags: seq<Tag>, rest: Result<seq<Tag>>): Result<seq<Tag>> {
    if rest.Ok? then Ok(tags + rest.value) else rest
  }

  lemma AppendPrepend(tags: seq<Tag>, t: Tag, rest: Result<seq<Tag>>)
    ensures Append(tags, Prepend(Ok(t), rest)) == Append(tags + [t], rest)
  {
    if rest.Ok? {
      assert tags + ([t] + rest.value) == tags + [t] + rest.value;
    }
  }

  /** Leading white space does not change the tags. */
  lemma SkipIsTransparent(s: string)
    ensures ParseTags(SkipSpace(s)) == ParseTags(s) && SkipSpace(SkipSpace(s)) == SkipSpace(s)
  {
  }
}
