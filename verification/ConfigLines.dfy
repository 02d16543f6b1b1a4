/**
 How forgiving the reader of a configuration block is: blank lines, comments,
 white space, the case of keys, a plus sign, the spellings of a switch, and the
 zeros that turn an option off.
 */
module ConfigLines {
  import opened Options
  import opened Text
  import opened ConfigFields
  import opened AmneziaConfig
  import Cps
  import TunnelSettings

  predicate Blank(s: string) { forall i :: 0 <= i < |s| ==> IsSpace(s[i]) }

  lemma {:induction false} TrimLeftPadded(a: string, x: string)
    requires Blank(a) && (x == [] || !IsSpace(x[0]))
    ensures TrimLeft(a + x) == x
  {
    if a == [] {
      assert a + x == x;
    } else {
      assert (a + x)[0] == a[0] && (a + x)[1..] == a[1..] + x;
      TrimLeftPadded(a[1..], x);
    }
  }

  lemma {:induction false} TrimRightPadded(x: string, b: string)
    requires Blank(b) && (x == [] || !IsSpace(x[|x| - 1]))
    ensures TrimRight(x + b) == x
  {
    if b == [] {
      assert x + b == x;
    } else {
      var s := x + b;
      assert s[|s| - 1] == b[|b| - 1] && s[..|s| - 1] == x + b[..|b| - 1];
      TrimRightPadded(x, b[..|b| - 1]);
    }
  }

  /** Trimming takes the white space off both ends and nothing else. */
  lemma TrimPadded(a: string, x: string, b: string)
    requires Blank(a) && Blank(b) && Tight(x)
    ensures Trim(a + x + b) == x
  {
    assert a + x + b == a + (x + b);
    assert (x + b)[0] == x[0];
    TrimLeftPadded(a, x + b);
    TrimRightPadded(x, b);
  }

  lemma BlankTrims(a: string)
    requires Blank(a)
    ensures Trim(a) == []
  {
    assert a + [] == a;
    TrimLeftPadded(a, []);
  }

  /** A key in any case is made of the characters names are made of, or their capitals. */
  lemma KeyIsSolid(key: string, f: nat)
    requires f < FIELDS && Lower(key) == NameOf(f)
    ensures Tight(key) && '=' !in key && key[0] != '#'
  {
    NamesArePlain(f);
    assert forall i :: 0 <= i < |key| ==> NameChar(LowerChar(key[i])) by {
      forall i | 0 <= i < |key| ensures NameChar(LowerChar(key[i])) {
        assert Lower(key)[i] == LowerChar(key[i]);
      }
    }
    assert NameChar(LowerChar(key[0])) && NameChar(LowerChar(key[|key| - 1]));
  }

  lemma AnyCase(c: Config, f: nat, key: string, b: string, d: string, value: string)
    requires |c| == FIELDS && f < FIELDS && Lower(key) == NameOf(f) && Blank(b) && Blank(d) && Tight(value)
    ensures Assign(c, key + b, d + value) == Assign(c, NameOf(f), value)
  {
    KeyIsSolid(key, f);
    NameIsTight(f);
    assert [] + key + b == key + b && d + value + [] == d + value;
    TrimPadded([], key, b);
    TrimPadded(d, value, []);
    TrimTight(value);
  }

  /** The first equals sign of a line, with white space before it. */
  lemma LineSplits(key: string, b: string, d: string, value: string, line: string)
    requires '=' !in key && Blank(b) && line == key + b + "=" + d + value
    ensures Find(line, '=') == Some(|key + b|) && line[..|key + b|] == key + b && line[|key + b| + 1..] == d + value
  {
    assert line == (key + b) + ['='] + (d + value);
    assert '=' !in b;
    FindIn(key + b, '=', d + value);
  }

  /** A key in any case, with any white space around it and its value, sets its field to that value. */
  lemma UserLine(
      c: Config, f: nat, a: string, key: string, b: string, d: string, value: string, e: string, line: string)
    requires |c| == FIELDS && f < FIELDS && Lower(key) == NameOf(f) && Tight(value)
    requires Blank(a) && Blank(b) && Blank(d) && Blank(e) && line == key + b + "=" + d + value
    ensures ReadLine(c, a + line + e) == Assign(c, NameOf(f), value)
  {
    KeyIsSolid(key, f);
    LineIsTight(key, b, d, value, line);
    TrimPadded(a, line, e);
    LineSplits(key, b, d, value, line);
    TrimmedLine(c, a + line + e, line, |key + b|, key + b, d + value);
    AnyCase(c, f, key, b, d, value);
  }

  lemma LineIsTight(key: string, b: string, d: string, value: string, line: string)
    requires Tight(key) && Tight(value) && line == key + b + "=" + d + value
    ensures Tight(line) && line[0] == key[0]
  {
  }

  lemma TrimmedLine(c: Config, raw: string, line: string, i: nat, key: string, value: string)
    requires |c| == FIELDS && Trim(raw) == line && line != [] && line[0] != '#' && Find(line, '=') == Some(i)
    requires key == line[..i] && value == line[i + 1..]
    ensures ReadLine(c, raw) == Assign(c, key, value)
  {
  }

  /** A comment line, or an empty one, changes nothing. */
  lemma CommentLine(c: Config, a: string, text: string, rest: string)
    requires |c| == FIELDS && Blank(a) && '\n' !in a && '\n' !in text && (text == [] || text[0] == '#')
    ensures ReadBlock(c, a + text + "\n" + rest) == ReadBlock(c, rest)
  {
    CommentReads(c, a, text);
    FirstLine(c, a + text, rest);
  }

  lemma CommentReads(c: Config, a: string, text: string)
    requires |c| == FIELDS && Blank(a) && (text == [] || text[0] == '#')
    ensures ReadLine(c, a + text) == Ok(c)
  {
    if text == [] {
      assert a + text == a;
      BlankTrims(a);
    } else {
      TrimLeftPadded(a, text);
      TrimRightStarts(text);
    }
  }

  lemma {:induction false} TrimRightStarts(s: string)
    requires s != [] && !IsSpace(s[0])
    ensures TrimRight(s) != [] && TrimRight(s)[0] == s[0]
  {
    if IsSpace(s[|s| - 1]) {
      TrimRightStarts(s[..|s| - 1]);
    }
  }

  /** A plus sign before a number is allowed. */
  lemma PlusParses(n: nat, max: nat)
    requires n <= max
    ensures ParseUnsigned("+" + Decimal(n), max) == Some(n)
  {
    var s := "+" + Decimal(n);
    assert s[1..] == Decimal(n);
    DecimalValue(n);
  }

  /** The spellings of a switch. */
  function Word(on: bool, i: nat): string
    requires i < 9
  {
    if on then
      if i == 0 then "1" else if i == 1 then "t" else if i == 2 then "T" else if i == 3 then "true"
      else if i == 4 then "TRUE" else if i == 5 then "True" else if i == 6 then "on" else if i == 7 then "ON" else "On"
    else
      if i == 0 then "0" else if i == 1 then "f" else if i == 2 then "F" else if i == 3 then "false"
      else if i == 4 then "FALSE" else if i == 5 then "False" else if i == 6 then "off" else if i == 7 then "OFF"
      else "Off"
  }

  lemma SwitchWords(on: bool, i: nat)
    requires i < 9
    ensures ParseFlag(Word(on, i)) == Some(Switch(on))
  {
  }

  // ---- Tags by their names ----

  /** The tag under a name that takes a length. */
  function SizedTag(name: string, n: nat): Option<Cps.Tag> {
    if name == "r" then Some(Cps.RandomBytes(n))
    else if name == "rc" then Some(Cps.RandomChars(n))
    else if name == "rd" then Some(Cps.RandomDigits(n))
    else if name == "dz" then Some(Cps.DataSize(n))
    else None
  }

  lemma SizedInner(name: string, n: nat)
    requires SizedTag(name, n).Some? && n <= Cps.MAX_RANDOM_LEN
    ensures Cps.TagFits(SizedTag(name, n).value) && Cps.Inner(SizedTag(name, n).value) == name + " " + Decimal(n)
  {
  }

  lemma OneTag(t: Cps.Tag, inner: string)
    requires Cps.TagFits(t) && inner == Cps.Inner(t)
    ensures Cps.ParseChain("<" + inner + ">") == Ok([t])
  {
    assert [t][1..] == [];
    assert Cps.PrintTags([t]) == "<" + inner + ">" + [];
    assert "<" + inner + ">" + [] == "<" + inner + ">";
    Cps.ChainPrintParse([t]);
  }

  lemma SizedTagReads(name: string, n: nat)
    requires SizedTag(name, n).Some? && n <= Cps.MAX_RANDOM_LEN
    ensures Cps.ParseChain("<" + (name + " " + Decimal(n)) + ">") == Ok([SizedTag(name, n).value])
  {
    SizedInner(name, n);
    OneTag(SizedTag(name, n).value, name + " " + Decimal(n));
  }

  /** The tag under a name that takes nothing. */
  function BareTag(name: string): Option<Cps.Tag> {
    if name == "t" then Some(Cps.Timestamp)
    else if name == "d" then Some(Cps.Data)
    else if name == "ds" then Some(Cps.DataString)
    else None
  }

  lemma BareInner(name: string)
    requires BareTag(name).Some?
    ensures Cps.TagFits(BareTag(name).value) && Cps.Inner(BareTag(name).value) == name
  {
  }

  lemma BareTagReads(name: string)
    requires BareTag(name).Some?
    ensures Cps.ParseChain("<" + name + ">") == Ok([BareTag(name).value])
  {
    BareInner(name);
    OneTag(BareTag(name).value, name);
  }

  // ---- Zeros ----

  /** A value that reads as an unset option clears its field. */
  lemma Clears(c: Config, f: nat, value: string, rest: string)
    requires |c| == FIELDS && f < FIELDS && OneLine(value) && ParseValue(KindOf(f), value) == Ok(Unset)
    ensures ReadBlock(c, TunnelSettings.Entry(NameOf(f), value, rest)) == ReadBlock(c[f := Unset], rest)
  {
    NameIsTight(f);
    FieldFromFinds(0, f);
    TrimTight(value);
    LineRead(c, NameOf(f), value);
    FirstLine(c, NameOf(f) + "=" + value, rest);
  }

  /** A key of zeros turns header protection off. */
  lemma ZeroKeyClears(c: Config, key: seq<nat>, rest: string, name: string)
    requires |c| == FIELDS && |key| == 32 && AllZero(key) && name == "header_protection_key"
    ensures AreBytes(key)
    ensures ReadBlock(c, TunnelSettings.Entry(name, Hex(key), rest)) == ReadBlock(c[PROTECTION_KEY := Unset], rest)
  {
    assert AreBytes(key);
    UnhexHex(key);
    assert IsHex(Hex(key)[0]) && IsHex(Hex(key)[63]);
    assert OneLine(Hex(key));
    Clears(c, PROTECTION_KEY, Hex(key), rest);
  }

  /** A range of zero turns content padding off. */
  lemma ZeroRangeClears(c: Config, rest: string, name: string, value: string)
    requires |c| == FIELDS && name == "content_padding_addition" && value == PrintRange(0, 0)
    ensures ReadBlock(c, TunnelSettings.Entry(name, value, rest)) == ReadBlock(c[ADDITION := Unset], rest)
  {
    RangeParses(0, 0);
    DecimalIsTight(0);
    TrimTight(value);
    Clears(c, ADDITION, value, rest);
  }
}
