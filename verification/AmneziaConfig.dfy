/**
 The configuration block: `key=value` lines read in order, later ones winning,
 then checked as a whole; the printer that writes only what differs from the
 defaults; and what printing, appending and reading again comes to. A
 configuration is the sequence of its fields' settings.
 */
module AmneziaConfig {
  import opened Options
  import opened Text
  import opened ConfigFields

  type Config = seq<Setting>

  /** Every field holds something of its kind. */
  predicate Canonical(c: Config) {
    |c| == FIELDS && forall f :: 0 <= f < FIELDS ==> Fits(KindOf(f), c[f])
  }

  function Defaults(): (c: Config)
    ensures |c| == FIELDS && forall f :: 0 <= f < FIELDS ==> c[f] == Default(f)
  {
    seq(FIELDS, f requires 0 <= f < FIELDS => Default(f))
  }

  datatype Error =
    | InvalidLine
    | UnsupportedField
    | InvalidValue(field: nat)
    | HeadersOverlap
    | JunkMinExceedsMax
    | PaddingTooSmall(field: nat)

  type Result = Outcome<Config, Error>

  // ---- Reading ----

  function LowerChar(c: char): char {
    if 'A' <= c <= 'Z' then (c as int + 32) as char else c
  }

  function Lower(s: string): (r: string)
    ensures |r| == |s|
  {
    seq(|s|, i requires 0 <= i < |s| => LowerChar(s[i]))
  }

  /** One `key=value` applied to a configuration. */
  function Assign(c: Config, key: string, value: string): Result
    requires |c| == FIELDS
  {
    match FieldFrom(Lower(Trim(key)), 0)
    case None => Err(UnsupportedField)
    case Some(f) =>
      match ParseValue(KindOf(f), Trim(value))
      case Err(_) => Err(InvalidValue(f))
      case Panics => Panics
      case Ok(s) => Ok(c[f := s])
  }

  /** One line: blank and comment lines do nothing. */
  function ReadLine(c: Config, raw: string): (r: Result)
    requires |c| == FIELDS
    ensures r.Ok? ==> |r.value| == FIELDS
  {
    var line := Trim(raw);
    if line == [] || line[0] == '#' then Ok(c) else
    match Find(line, '=')
    case None => Err(InvalidLine)
    case Some(i) => Assign(c, line[..i], line[i + 1..])
  }

  function ReadLines(c: Config, lines: seq<string>): (r: Result)
    requires |c| == FIELDS
    ensures r.Ok? ==> |r.value| == FIELDS
    decreases |lines|
  {
    if lines == [] then Ok(c) else
    var first := ReadLine(c, lines[0]);
    if first.Ok? then ReadLines(first.value, lines[1..]) else first
  }

  /**
   The assignments of a block, made in order over a configuration. A carriage
   return before a line break is white space at the end of its line.
   */
  function ReadBlock(c: Config, block: string): Result
    requires |c| == FIELDS
  {
    ReadLines(c, Split(block, '\n'))
  }

  // ---- Checking ----

  predicate Overlap(a: Setting, b: Setting) {
    a.Span? && b.Span? && a.lo <= b.hi && b.lo <= a.hi
  }

  predicate HeadersDisjoint(c: Config)
    requires |c| == FIELDS
  {
    && !Overlap(c[7], c[8]) && !Overlap(c[7], c[9]) && !Overlap(c[7], c[10])
    && !Overlap(c[8], c[9]) && !Overlap(c[8], c[10]) && !Overlap(c[9], c[10])
  }

  predicate JunkOrdered(c: Config)
    requires |c| == FIELDS
  {
    c[JC].Number? && c[JMIN].Number? && c[JMAX].Number? && c[JC].n != 0 ==> c[JMIN].n <= c[JMAX].n
  }

  /** Every prefix has room for the protection nonce. */
  predicate PaddingsLong(c: Config)
    requires |c| == FIELDS
  {
    forall f :: S1 <= f <= S4 && c[f].Number? ==> c[f].n >= 12
  }

  /** The first padding from `f` on that is too short for header protection. */
  function ShortPadding(c: Config, f: nat): (r: Option<nat>)
    requires |c| == FIELDS && S1 <= f <= S4 + 1
    ensures r.Some? ==> f <= r.value <= S4 && c[r.value].Number? && c[r.value].n < 12
    ensures r.None? ==> forall g :: f <= g <= S4 && c[g].Number? ==> c[g].n >= 12
    decreases S4 + 1 - f
  {
    if f > S4 then None
    else if c[f].Number? && c[f].n < 12 then Some(f)
    else ShortPadding(c, f + 1)
  }

  /** The rules across fields. That a range ends no earlier than it starts was settled when it was read. */
  function Checked(c: Config): (r: Result)
    requires |c| == FIELDS
    ensures r.Ok? ==> r.value == c
    ensures r.Ok? <==>
      HeadersDisjoint(c) && JunkOrdered(c) && (c[PROTECTION_KEY].Unset? || PaddingsLong(c))
  {
    if !HeadersDisjoint(c) then Err(HeadersOverlap)
    else if !JunkOrdered(c) then Err(JunkMinExceedsMax)
    else if c[PROTECTION_KEY].Unset? then Ok(c)
    else match ShortPadding(c, S1)
         case Some(f) => Err(PaddingTooSmall(f))
         case None => Ok(c)
  }

  function Finish(r: Result): Result
    requires r.Ok? ==> |r.value| == FIELDS
  {
    if r.Ok? then Checked(r.value) else r
  }

  function Parse(block: string): Result {
    Finish(ReadBlock(Defaults(), block))
  }

  // ---- Writing ----

  /** Junk and header settings are written as sets: all of a group if any of it differs. */
  predicate SameGroup(f: nat, g: nat) {
    f == g || (f <= JMAX && g <= JMAX) || (H1 <= f <= H4 && H1 <= g <= H4)
  }

  predicate Written(c: Config, f: nat)
    requires |c| == FIELDS && f < FIELDS
  {
    exists g :: 0 <= g < FIELDS && SameGroup(f, g) && c[g] != Default(g)
  }

  function Line(c: Config, f: nat): string
    requires Canonical(c) && f < FIELDS
  {
    if Written(c, f) && Writable(c[f]) then NameOf(f) + "=" + PrintValue(c[f]) + "\n" else []
  }

  /** The block from field `f` on. */
  function BlockFrom(c: Config, f: nat): string
    requires Canonical(c) && f <= FIELDS
    decreases FIELDS - f
  {
    if f == FIELDS then [] else Line(c, f) + BlockFrom(c, f + 1)
  }

  function Block(c: Config): string
    requires Canonical(c)
  {
    BlockFrom(c, 0)
  }

  // ---- A written line reads back ----

  lemma NameIsTight(f: nat)
    requires f < FIELDS
    ensures var n := NameOf(f);
      OneLine(n) && '=' !in n && n[0] != '#' && Lower(n) == n && Trim(n) == n
  {
    NamesArePlain(f);
    var n := NameOf(f);
    assert forall i :: 0 <= i < |n| ==> NameChar(n[i]) && LowerChar(n[i]) == n[i];
    assert NameChar(n[0]) && NameChar(n[|n| - 1]);
    TrimTight(n);
  }

  lemma AssignRead(c: Config, f: nat, s: Setting)
    requires |c| == FIELDS && f < FIELDS && Fits(KindOf(f), s) && !s.Unset?
    ensures Writable(s) && Assign(c, NameOf(f), PrintValue(s)) == Ok(c[f := s])
  {
    NameIsTight(f);
    FieldFromFinds(0, f);
    ValueParses(KindOf(f), s);
    TrimTight(PrintValue(s));
  }

  lemma LineRead(c: Config, name: string, value: string)
    requires |c| == FIELDS && OneLine(name) && OneLine(value) && '=' !in name && name[0] != '#'
    ensures ReadLine(c, name + "=" + value) == Assign(c, name, value)
  {
    var line := name + "=" + value;
    assert line == name + ['='] + value;
    assert Tight(line);
    TrimTight(line);
    FindIn(name, '=', value);
    assert line[..|name|] == name && line[|name| + 1..] == value;
  }

  /** Reading a block line by line. */
  lemma FirstLine(c: Config, line: string, rest: string)
    requires |c| == FIELDS && '\n' !in line
    ensures ReadBlock(c, line + "\n" + rest) ==
              var first := ReadLine(c, line); if first.Ok? then ReadBlock(first.value, rest) else first
  {
    assert line + "\n" + rest == line + ['\n'] + rest;
    SplitFirst(line, '\n', rest);
  }

  lemma FieldRead(c: Config, f: nat, s: Setting, rest: string)
    requires |c| == FIELDS && f < FIELDS && Fits(KindOf(f), s) && !s.Unset?
    ensures Writable(s) && ReadBlock(c, NameOf(f) + "=" + PrintValue(s) + "\n" + rest) == ReadBlock(c[f := s], rest)
  {
    AssignRead(c, f, s);
    NameIsTight(f);
    ValueParses(KindOf(f), s);
    LineRead(c, NameOf(f), PrintValue(s));
    FirstLine(c, NameOf(f) + "=" + PrintValue(s), rest);
  }

  // ---- A written block reads back ----

  /** The first `f` fields of `c`, and the defaults of the others. */
  ghost function Half(c: Config, f: nat): (r: Config)
    requires |c| == FIELDS && f <= FIELDS
    ensures |r| == FIELDS
  {
    c[..f] + Defaults()[f..]
  }

  lemma HalfStep(c: Config, f: nat)
    requires Canonical(c) && f < FIELDS
    ensures Half(c, f)[f := c[f]] == Half(c, f + 1)
    ensures c[f] == Default(f) ==> Half(c, f + 1) == Half(c, f)
  {
  }

  lemma UnwrittenIsDefault(c: Config, f: nat)
    requires Canonical(c) && f < FIELDS && !(Written(c, f) && Writable(c[f]))
    ensures c[f] == Default(f)
  {
  }

  lemma ValueIsWritable(k: Kind, s: Setting)
    requires Fits(k, s)
    ensures Writable(s) <==> !s.Unset?
  {
  }

  /** A field's line, if there is one, sets that field. */
  lemma StepRead(c: Config, f: nat, rest: string)
    requires Canonical(c) && f < FIELDS
    ensures ReadBlock(Half(c, f), Line(c, f) + rest) == ReadBlock(Half(c, f + 1), rest)
  {
    HalfStep(c, f);
    if Written(c, f) && Writable(c[f]) {
      ValueIsWritable(KindOf(f), c[f]);
      FieldRead(Half(c, f), f, c[f], rest);
    } else {
      UnwrittenIsDefault(c, f);
      assert [] + rest == rest;
    }
  }

  lemma Associate(a: string, b: string, c: string)
    ensures (a + b) + c == a + (b + c)
  {
  }

  /** The block from field `f` on, read over the first `f` fields, completes the configuration. */
  lemma {:induction false} RestRead(c: Config, f: nat, b: string, block: string)
    requires Canonical(c) && f <= FIELDS && block == BlockFrom(c, f)
    ensures ReadBlock(Half(c, f), block + b) == ReadBlock(Half(c, FIELDS), b)
    decreases FIELDS - f
  {
    if f == FIELDS {
      Nothing(b);
    } else {
      var line, rest := Line(c, f), BlockFrom(c, f + 1);
      RestRead(c, f + 1, b, rest);
      StepRead(c, f, rest + b);
      Associate(line, rest, b);
    }
  }

  /**
   Incremental update is field-wise overlay: for every configuration and every
   block, reading the printed configuration followed by the block is checking
   the block's assignments made over the configuration.
   */
  lemma Overlay(c: Config, b: string)
    requires Canonical(c)
    ensures Parse(Block(c) + b) == Finish(ReadBlock(c, b))
  {
    assert Half(c, 0) == Defaults() && Half(c, FIELDS) == c;
    RestRead(c, 0, b, Block(c));
  }

  /** A configuration `Parse` can return prints to a block that parses to it. */
  lemma PrintParse(c: Config)
    requires Canonical(c) && Checked(c).Ok?
    ensures Parse(Block(c)) == Ok(c)
  {
    Overlay(c, []);
    EmptyBlock(c);
    Nothing(Block(c));
  }

  lemma EmptyBlock(c: Config)
    requires |c| == FIELDS
    ensures ReadBlock(c, []) == Ok(c)
  {
    SplitWhole([], '\n');
    assert ReadLine(c, []) == Ok(c);
    var lines: seq<string> := [[]];
    assert lines[1..] == [];
    assert ReadLines(c, lines) == ReadLines(c, lines[1..]);
  }

  lemma LineKeepsCanonical(c: Config, raw: string)
    requires Canonical(c)
    ensures ReadLine(c, raw).Ok? ==> Canonical(ReadLine(c, raw).value)
  {
    var line := Trim(raw);
    if line != [] && line[0] != '#' && Find(line, '=').Some? {
      var i := Find(line, '=').value;
      var f := FieldFrom(Lower(Trim(line[..i])), 0);
      if f.Some? {
        ReadFits(KindOf(f.value), Trim(line[i + 1..]));
      }
    }
  }

  lemma {:induction false} LinesKeepCanonical(c: Config, lines: seq<string>)
    requires Canonical(c)
    ensures ReadLines(c, lines).Ok? ==> Canonical(ReadLines(c, lines).value)
    decreases |lines|
  {
    if lines != [] {
      LineKeepsCanonical(c, lines[0]);
      if ReadLine(c, lines[0]).Ok? {
        LinesKeepCanonical(ReadLine(c, lines[0]).value, lines[1..]);
      }
    }
  }

  /** What `Parse` returns is canonical and checked, so it survives printing. */
  lemma ParsedSurvives(block: string)
    requires Parse(block).Ok?
    ensures Canonical(Parse(block).value) && Checked(Parse(block).value).Ok?
    ensures Parse(Block(Parse(block).value)) == Parse(block)
  {
    LinesKeepCanonical(Defaults(), Split(block, '\n'));
    PrintParse(Parse(block).value);
  }

  // ---- When parsing panics ----

  /** A line that sets a signature chain whose tags panic. */
  ghost predicate LineBreaks(raw: string) {
    var line := Trim(raw);
    line != [] && line[0] != '#' && Find(line, '=').Some? &&
    var i := Find(line, '=').value;
    var f := FieldFrom(Lower(Trim(line[..i])), 0);
    f.Some? && I1 <= f.value <= I5 && Cps.ChainBreaks(Trim(line[i + 1..]))
  }

  lemma AssignPanics(c: Config, key: string, value: string)
    requires |c| == FIELDS
    ensures var f := FieldFrom(Lower(Trim(key)), 0);
      Assign(c, key, value).Panics? <==> f.Some? && I1 <= f.value <= I5 && Cps.ChainBreaks(Trim(value))
  {
    var f := FieldFrom(Lower(Trim(key)), 0);
    if f.Some? {
      ValuePanics(KindOf(f.value), Trim(value));
    }
  }

  lemma LinePanics(c: Config, raw: string)
    requires |c| == FIELDS
    ensures ReadLine(c, raw).Panics? <==> LineBreaks(raw)
  {
    var line := Trim(raw);
    if line != [] && line[0] != '#' && Find(line, '=').Some? {
      var i := Find(line, '=').value;
      AssignPanics(c, line[..i], line[i + 1..]);
    }
  }

  /** Such a line, after nothing but sound ones. */
  ghost predicate BreaksAt(c: Config, lines: seq<string>, n: nat)
    requires |c| == FIELDS
  {
    n < |lines| && LineBreaks(lines[n]) && ReadLines(c, lines[..n]).Ok?
  }

  lemma BreaksLater(c: Config, lines: seq<string>, n: nat)
    requires |c| == FIELDS && lines != [] && n < |lines| - 1 && ReadLine(c, lines[0]).Ok?
    ensures BreaksAt(c, lines, n + 1) <==> BreaksAt(ReadLine(c, lines[0]).value, lines[1..], n)
  {
    assert lines[..n + 1][0] == lines[0] && lines[..n + 1][1..] == lines[1..][..n];
  }

  lemma {:induction false} LinesPanic(c: Config, lines: seq<string>)
    requires |c| == FIELDS
    ensures ReadLines(c, lines).Panics? <==> exists n: nat :: BreaksAt(c, lines, n)
    decreases |lines|
  {
    if lines != [] {
      LinePanics(c, lines[0]);
      assert lines[..0] == [];
      var first := ReadLine(c, lines[0]);
      if first.Panics? {
        assert BreaksAt(c, lines, 0);
      } else if first.Ok? {
        LinesPanic(first.value, lines[1..]);
        if n: nat :| BreaksAt(first.value, lines[1..], n) {
          BreaksLater(c, lines, n);
        }
        if n: nat :| BreaksAt(c, lines, n) {
          BreaksLater(c, lines, n - 1);
        }
      } else {
        forall n: nat ensures !BreaksAt(c, lines, n) {
          if 0 < n < |lines| { assert lines[..n][0] == lines[0]; }
        }
      }
    }
  }

  ghost predicate BlockBreaks(c: Config, b: string)
    requires |c| == FIELDS
  {
    exists n: nat :: BreaksAt(c, Split(b, '\n'), n)
  }

  lemma BlockPanics(c: Config, b: string)
    requires |c| == FIELDS
    ensures Finish(ReadBlock(c, b)).Panics? <==> BlockBreaks(c, b)
  {
    LinesPanic(c, Split(b, '\n'));
  }

  /**
   Parsing an update panics exactly when a line of the block sets a signature
   chain that panics, and every line before it is sound.
   */
  lemma UpdatePanics(c: Config, b: string, merged: string)
    requires Canonical(c) && merged == Block(c) + b
    ensures Parse(merged).Panics? <==> BlockBreaks(c, b)
  {
    Overlay(c, b);
    BlockPanics(c, b);
  }

  lemma ChainLinePanics(c: Config, value: string)
    requires |c| == FIELDS && OneLine(value) && Cps.ChainBreaks(value)
    ensures ReadBlock(c, NameOf(I1) + "=" + value).Panics?
  {
    NameIsTight(I1);
    FieldFromFinds(0, I1);
    TrimTight(value);
    AssignPanics(c, NameOf(I1), value);
    LineRead(c, NameOf(I1), value);
    SplitWhole(NameOf(I1) + "=" + value, '\n');
  }

  lemma UpdateOfChainPanics(c: Config, value: string)
    requires Canonical(c) && OneLine(value) && Cps.ChainBreaks(value)
    ensures Parse(Block(c) + (NameOf(I1) + "=" + value)).Panics?
  {
    ChainLinePanics(c, value);
    Overlay(c, NameOf(I1) + "=" + value);
  }

  /** One accented letter among the digits of a bytes tag, in any configuration. */
  lemma AccentPanics(c: Config, value: string)
    requires Canonical(c) && value == Cps.Accented()
    ensures Parse(Block(c) + (NameOf(I1) + "=" + value)).Panics?
  {
    Cps.AccentBreaks(value);
    UpdateOfChainPanics(c, value);
  }

  // ---- The loops ----

  /** The parser's loop over the lines of a block. */
  method ParseText(block: string) returns (r: Result)
    ensures r == Parse(block)
  {
    var config := Defaults();
    var lines := Split(block, '\n');
    for i := 0 to |lines|
      invariant |config| == FIELDS
      invariant ReadLines(Defaults(), lines) == ReadLines(config, lines[i..])
    {
      assert lines[i..][0] == lines[i] && lines[i..][1..] == lines[i + 1..];
      var step := ReadLine(config, lines[i]);
      if !step.Ok? {
        return step;
      }
      config := step.value;
    }
    r := Checked(config);
  }

  /** The printer's walk over the fields. */
  method PrintText(c: Config) returns (out: string)
    requires Canonical(c)
    ensures out == Block(c)
  {
    out := [];
    Nothing(Block(c));
    for f := 0 to FIELDS
      invariant out + BlockFrom(c, f) == Block(c)
    {
      Associate(out, Line(c, f), BlockFrom(c, f + 1));
      out := out + Line(c, f);
    }
    Nothing(out);
  }

  lemma Nothing(s: string)
    ensures s + [] == s && [] + s == s
  {
  }
}
