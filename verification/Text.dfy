/** Text as the configuration language reads it: white space, splitting, decimal and hexadecimal numbers. */
module Text {
  import opened Options

  /** What reading a text may come to; slicing it inside a character panics. */
  datatype Outcome<+T, +E> = Ok(value: T) | Err(error: E) | Panics

  /** Unicode white space. */
  predicate IsSpace(c: char) {
    var n := c as int;
    9 <= n <= 13 || n == 32 || n == 0x85 || n == 0xA0 || n == 0x1680 || 0x2000 <= n <= 0x200A
    || n == 0x2028 || n == 0x2029 || n == 0x202F || n == 0x205F || n == 0x3000
  }

  predicate IsAsciiSpace(c: char) {
    c == ' ' || c == '\t' || c == '\n' || c as int == 12 || c == '\r'
  }

  function TrimLeft(s: string): (r: string)
    ensures |r| <= |s|
    ensures r == [] || !IsSpace(r[0])
  {
    if s != [] && IsSpace(s[0]) then TrimLeft(s[1..]) else s
  }

  function TrimRight(s: string): string {
    if s != [] && IsSpace(s[|s| - 1]) then TrimRight(s[..|s| - 1]) else s
  }

  function Trim(s: string): string {
    TrimRight(TrimLeft(s))
  }

  /** Text that starts and ends in ink. */
  predicate Tight(s: string) {
    s != [] && !IsSpace(s[0]) && !IsSpace(s[|s| - 1])
  }

  lemma TrimTight(s: string)
    requires Tight(s)
    ensures Trim(s) == s
  {
  }

  /** The first occurrence of `c`. */
  function Find(s: string, c: char): (r: Option<nat>)
    ensures r.Some? ==> r.value < |s| && s[r.value] == c && c !in s[..r.value]
    ensures r.None? ==> c !in s
  {
    if s == [] then None
    else if s[0] == c then Some(0)
    else
      var r := Find(s[1..], c);
      if r.None? then None
      else assert s[..r.value + 1] == [s[0]] + s[1..][..r.value]; Some(r.value + 1)
  }

  lemma {:induction false} FindIn(a: string, c: char, b: string)
    requires c !in a
    ensures Find(a + [c] + b, c) == Some(|a|)
  {
    if a == [] {
      assert a + [c] + b == [c] + b;
    } else {
      FindIn(a[1..], c, b);
      assert (a + [c] + b)[1..] == a[1..] + [c] + b;
    }
  }

  /** The pieces between separators; one more than there are separators. */
  function Split(s: string, c: char): (r: seq<string>)
    ensures r != []
    decreases |s|
  {
    match Find(s, c)
    case None => [s]
    case Some(i) => [s[..i]] + Split(s[i + 1..], c)
  }

  lemma SplitFirst(a: string, c: char, b: string)
    requires c !in a
    ensures Split(a + [c] + b, c) == [a] + Split(b, c)
  {
    FindIn(a, c, b);
    assert (a + [c] + b)[..|a|] == a;
    assert (a + [c] + b)[|a| + 1..] == b;
  }

  lemma SplitWhole(a: string, c: char)
    requires c !in a
    ensures Split(a, c) == [a]
  {
  }

  // ---- Decimal ----

  predicate IsDigit(c: char) { '0' <= c <= '9' }

  function DigitValue(c: char): (n: nat)
    requires IsDigit(c)
    ensures n < 10
  {
    c as int - '0' as int
  }

  function Digit(n: nat): (c: char)
    requires n < 10
    ensures IsDigit(c) && DigitValue(c) == n
  {
    ('0' as int + n) as char
  }

  function Decimal(n: nat): (s: string)
    ensures s != []
    ensures forall i :: 0 <= i < |s| ==> IsDigit(s[i])
  {
    if n < 10 then [Digit(n)] else Decimal(n / 10) + [Digit(n % 10)]
  }

  /** The value of one or more digits. */
  function DigitsValue(s: string): Option<nat> {
    if s == [] || !IsDigit(s[|s| - 1]) then None
    else if |s| == 1 then Some(DigitValue(s[0]))
    else match DigitsValue(s[..|s| - 1])
         case None => None
         case Some(high) => Some(high * 10 + DigitValue(s[|s| - 1]))
  }

  /** An unsigned number up to `max`; a leading plus sign is allowed. */
  function ParseUnsigned(s: string, max: nat): (r: Option<nat>)
    ensures r.Some? ==> r.value <= max
  {
    var digits := if |s| > 1 && s[0] == '+' then s[1..] else s;
    match DigitsValue(digits)
    case None => None
    case Some(n) => if n <= max then Some(n) else None
  }

  lemma {:induction false} DecimalValue(n: nat)
    ensures DigitsValue(Decimal(n)) == Some(n)
  {
    if n >= 10 {
      DecimalValue(n / 10);
      var s := Decimal(n);
      assert s[..|s| - 1] == Decimal(n / 10);
    }
  }

  lemma DecimalParses(n: nat, max: nat)
    requires n <= max
    ensures ParseUnsigned(Decimal(n), max) == Some(n)
  {
  }

  // ---- Hexadecimal ----

  predicate IsHex(c: char) { '0' <= c <= '9' || 'a' <= c <= 'f' || 'A' <= c <= 'F' }

  function HexValue(c: char): (n: nat)
    requires IsHex(c)
    ensures n < 16
  {
    if c <= '9' then c as int - '0' as int
    else if c <= 'F' then c as int - 'A' as int + 10
    else c as int - 'a' as int + 10
  }

  function HexDigit(n: nat): (c: char)
    requires n < 16
    ensures IsHex(c) && HexValue(c) == n
  {
    if n < 10 then ('0' as int + n) as char else ('a' as int + n - 10) as char
  }

  predicate AreBytes(bytes: seq<nat>) { forall i :: 0 <= i < |bytes| ==> bytes[i] < 256 }

  /** Two lower-case digits a byte. */
  function Hex(bytes: seq<nat>): (s: string)
    requires AreBytes(bytes)
    ensures |s| == 2 * |bytes|
    ensures forall i :: 0 <= i < |s| ==> IsHex(s[i])
  {
    if bytes == [] then [] else [HexDigit(bytes[0] / 16), HexDigit(bytes[0] % 16)] + Hex(bytes[1..])
  }

  /** A byte from two characters; `loose` also takes a plus sign and one digit. */
  function HexByte(a: char, b: char, loose: bool): (r: Option<nat>)
    ensures r.Some? ==> r.value < 256
  {
    if IsHex(a) && IsHex(b) then Some(HexValue(a) * 16 + HexValue(b))
    else if loose && a == '+' && IsHex(b) then Some(HexValue(b))
    else None
  }

  function Unhex(s: string): (r: Option<seq<nat>>)
    ensures r.Some? ==> AreBytes(r.value) && |s| == 2 * |r.value|
  {
    if s == [] then Some([])
    else if |s| == 1 then None
    else
      var first := HexByte(s[0], s[1], false);
      if first.None? then None else
      var rest := Unhex(s[2..]);
      if rest.None? then None else Some([first.value] + rest.value)
  }

  lemma ByteRoundTrip(b: nat, loose: bool)
    requires b < 256
    ensures HexByte(HexDigit(b / 16), HexDigit(b % 16), loose) == Some(b)
  {
  }

  lemma {:induction false} UnhexHex(bytes: seq<nat>)
    requires AreBytes(bytes)
    ensures Unhex(Hex(bytes)) == Some(bytes)
  {
    if bytes != [] {
      UnhexHex(bytes[1..]);
      ByteRoundTrip(bytes[0], false);
      assert Hex(bytes)[2..] == Hex(bytes[1..]);
      assert bytes == [bytes[0]] + bytes[1..];
    }
  }

  lemma {:induction false} HexPairAt(bytes: seq<nat>, k: nat)
    requires AreBytes(bytes) && k < |bytes|
    ensures Hex(bytes)[2 * k] == HexDigit(bytes[k] / 16) && Hex(bytes)[2 * k + 1] == HexDigit(bytes[k] % 16)
  {
    if k > 0 {
      HexPairAt(bytes[1..], k - 1);
      assert Hex(bytes)[2..] == Hex(bytes[1..]);
    }
  }

  // ---- Bytes of a text ----

  /** How many bytes a character takes in UTF-8. */
  function Width(c: char): (n: nat)
    ensures 1 <= n <= 4
  {
    if c as int < 0x80 then 1 else if c as int < 0x800 then 2 else if c as int < 0x10000 then 3 else 4
  }

  function ByteLen(s: string): nat {
    if s == [] then 0 else Width(s[0]) + ByteLen(s[1..])
  }

  /** The character that starts at a byte offset, or the end; nothing if the offset is inside a character. */
  function CharAt(s: string, at: nat): (r: Option<nat>)
    ensures r.Some? ==> r.value <= |s| && (at < ByteLen(s) <==> r.value < |s|)
    ensures r.Some? ==> at <= ByteLen(s)
  {
    if at == 0 then Some(0)
    else if s == [] || at < Width(s[0]) then None
    else match CharAt(s[1..], at - Width(s[0]))
         case None => None
         case Some(i) => Some(i + 1)
  }

  lemma {:induction false} CharAtMonotone(s: string, a: nat, b: nat)
    requires a <= b && CharAt(s, a).Some? && CharAt(s, b).Some?
    ensures CharAt(s, a).value <= CharAt(s, b).value
  {
    if a > 0 {
      CharAtMonotone(s[1..], a - Width(s[0]), b - Width(s[0]));
    }
  }

  /** The text between two byte offsets, if both are between characters. */
  function Slice(s: string, a: nat, b: nat): (r: Option<string>)
    requires a <= b
  {
    if CharAt(s, a).None? || CharAt(s, b).None? then None
    else CharAtMonotone(s, a, b); Some(s[CharAt(s, a).value..CharAt(s, b).value])
  }

  predicate Ascii(s: string) { forall i :: 0 <= i < |s| ==> Width(s[i]) == 1 }

  lemma {:induction false} AsciiOffsets(s: string, at: nat)
    requires Ascii(s) && at <= |s|
    ensures ByteLen(s) == |s| && CharAt(s, at) == Some(at)
  {
    if s != [] {
      AsciiOffsets(s[1..], if at == 0 then 0 else at - 1);
    }
  }

  lemma AsciiPair(s: string, at: nat)
    requires Ascii(s) && at + 2 <= |s|
    ensures Slice(s, at, at + 2) == Some([s[at], s[at + 1]])
  {
    AsciiOffsets(s, at);
    AsciiOffsets(s, at + 2);
    assert s[at..at + 2] == [s[at], s[at + 1]];
  }
}
