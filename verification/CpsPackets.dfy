/**
 The packet a signature chain generates: consecutive segments, one a tag,
 filling exactly the length computed beforehand, or the panic of a size tag
 wider than the eight bytes a size has. Random draws are numbered by the byte
 they fill; base64 is a parameter.
 */
module CpsPackets {
  import opened Options
  import opened Text
  import opened Cps

  type Draws = nat -> nat

  type Encoder = seq<nat> -> seq<nat>

  /** What a packet is made from: the draws, the clock in seconds, the source data and base64. */
  datatype Input = Input(draws: Draws, now: nat, data: seq<nat>, b64: Encoder) {
    predicate Valid() {
      && AreBytes(data)
      && (data != [] ==> |b64(data)| == EncodedLen(DataString, |data|) && AreBytes(b64(data)))
    }
  }

  function EncodedLen(t: Tag, dataLen: nat): nat {
    match t
    case Bytes(bytes) => |bytes|
    case Timestamp => 4
    case RandomBytes(len) => len
    case RandomChars(len) => len
    case RandomDigits(len) => len
    case Data => dataLen
    case DataString => (dataLen + 2) / 3 * 4
    case DataSize(len) => len
  }

  function ChainLen(tags: seq<Tag>, dataLen: nat): nat {
    if tags == [] then 0 else ChainLen(tags[..|tags| - 1], dataLen) + EncodedLen(tags[|tags| - 1], dataLen)
  }

  /** The `k` low bytes of `n`, most significant first. */
  function BigEndian(n: nat, k: nat): (s: seq<nat>)
    ensures |s| == k && AreBytes(s)
  {
    if k == 0 then [] else BigEndian(n / 256, k - 1) + [n % 256]
  }

  /** The number bytes stand for, most significant first. */
  function Number(s: seq<nat>): nat {
    if s == [] then 0 else Number(s[..|s| - 1]) * 256 + s[|s| - 1]
  }

  function Power256(k: nat): (p: nat)
    ensures p > 0
  {
    if k == 0 then 1 else 256 * Power256(k - 1)
  }

  /** What is left of `n` above its `k` low bytes. */
  function Above(n: nat, k: nat): nat {
    if k == 0 then n else Above(n / 256, k - 1)
  }

  lemma Product256(p: nat, a: nat)
    ensures 256 * (p * a) == (256 * p) * a
  {
  }

  /** The bytes stand for the number, cut to their width: what is lost is a multiple of that. */
  lemma {:induction false} BigEndianNumber(n: nat, k: nat)
    ensures Number(BigEndian(n, k)) < Power256(k)
    ensures n == Power256(k) * Above(n, k) + Number(BigEndian(n, k))
  {
    if k > 0 {
      BigEndianNumber(n / 256, k - 1);
      assert BigEndian(n, k)[..k - 1] == BigEndian(n / 256, k - 1);
      Product256(Power256(k - 1), Above(n / 256, k - 1));
    }
  }

  predicate IsLetter(b: nat) { 97 <= b <= 122 || 65 <= b <= 90 }

  predicate IsRandom(t: Tag) { t.RandomBytes? || t.RandomChars? || t.RandomDigits? }

  /** The letter at an index of the alphabet. */
  function Letter(i: nat): (b: nat)
    requires i < 52
    ensures IsLetter(b)
  {
    if i < 26 then 97 + i else 65 + (i - 26)
  }

  /** The byte a random tag makes of a draw. */
  function Drawn(t: Tag, draw: nat): nat
    requires IsRandom(t)
  {
    if t.RandomChars? then Letter(draw % 52)
    else if t.RandomDigits? then 48 + draw % 10
    else draw % 256
  }

  /** The bytes a random tag may yield. */
  predicate Yields(t: Tag, b: nat)
    requires IsRandom(t)
  {
    if t.RandomChars? then IsLetter(b) else if t.RandomDigits? then 48 <= b <= 57 else b < 256
  }

  /** A random tag yields those and no others, each from exactly the draws of one residue. */
  lemma DrawnExactly(t: Tag, b: nat)
    requires IsRandom(t)
    ensures (exists d: nat :: Drawn(t, d) == b) <==> Yields(t, b)
    ensures var m := if t.RandomChars? then 52 else if t.RandomDigits? then 10 else 256;
      forall d: nat, d': nat :: Drawn(t, d) == Drawn(t, d') <==> d % m == d' % m
  {
    if Yields(t, b) {
      var letter := if b >= 97 then b - 97 else b - 39;
      var d: nat := if t.RandomDigits? then b - 48 else if t.RandomBytes? then b else letter;
      assert Drawn(t, d) == b;
    }
  }

  /** What a tag puts into a packet at `at`. */
  ghost predicate Segment(t: Tag, x: Input, at: nat, s: seq<nat>) {
    && |s| == EncodedLen(t, |x.data|)
    && AreBytes(s)
    && match t
       case Bytes(bytes) => s == bytes
       case Timestamp => s == BigEndian(x.now, 4)
       case Data => s == x.data
       case DataString => x.data != [] ==> s == x.b64(x.data)
       case DataSize(len) => s == BigEndian(|x.data|, len)
       case _ => forall i :: 0 <= i < |s| ==> s[i] == Drawn(t, x.draws(at + i))
  }

  /** A packet is the tags' segments, in order and back to back. */
  ghost predicate Segments(tags: seq<Tag>, x: Input, s: seq<nat>) {
    if tags == [] then s == [] else
    var last := EncodedLen(tags[|tags| - 1], |x.data|);
    && last <= |s|
    && Segments(tags[..|tags| - 1], x, s[..|s| - last])
    && Segment(tags[|tags| - 1], x, |s| - last, s[|s| - last..])
  }

  lemma SegmentsExtend(tags: seq<Tag>, t: Tag, x: Input, s: seq<nat>, seg: seq<nat>)
    requires Segments(tags, x, s) && Segment(t, x, |s|, seg)
    ensures Segments(tags + [t], x, s + seg)
  {
    assert (s + seg)[..|s|] == s && (s + seg)[|s|..] == seg;
    assert (tags + [t])[..|tags|] == tags;
  }

  /** A packet is determined by its tags and what it is made from. */
  lemma {:induction false} SegmentsUnique(tags: seq<Tag>, x: Input, s: seq<nat>, s': seq<nat>)
    requires Segments(tags, x, s) && Segments(tags, x, s')
    ensures s == s'
    decreases |tags|
  {
    if tags != [] {
      var t := tags[|tags| - 1];
      var last := EncodedLen(t, |x.data|);
      SegmentsUnique(tags[..|tags| - 1], x, s[..|s| - last], s'[..|s'| - last]);
      assert s[|s| - last..] == s'[|s'| - last..];
      assert s == s[..|s| - last] + s[|s| - last..] && s' == s'[..|s'| - last] + s'[|s'| - last..];
    }
  }

  /** The tail of a longer big-endian number is the shorter one. */
  lemma {:induction false} BigEndianTail(n: nat, k: nat, len: nat)
    requires len <= k
    ensures BigEndian(n, k)[k - len..] == BigEndian(n, len)
    decreases k
  {
    if len > 0 {
      BigEndianTail(n / 256, k - 1, len - 1);
      assert BigEndian(n, k)[k - len..] == BigEndian(n / 256, k - 1)[k - len..] + [n % 256];
    }
  }

  method Copy(out: array<nat>, at: nat, s: seq<nat>)
    requires at + |s| <= out.Length
    modifies out
    ensures out[..at] == old(out[..at]) && out[at..at + |s|] == s
  {
    ghost var before := out[..];
    for i := 0 to |s|
      invariant forall j :: 0 <= j < out.Length ==> out[j] == if at <= j < at + i then s[j - at] else before[j]
    {
      out[at + i] := s[i];
    }
  }

  method FillRandom(t: Tag, x: Input, out: array<nat>, at: nat)
    requires IsRandom(t) && at + t.len <= out.Length
    modifies out
    ensures out[..at] == old(out[..at])
    ensures Segment(t, x, at, out[at..at + t.len])
  {
    ghost var before := out[..];
    for i := 0 to t.len
      invariant forall j :: 0 <= j < at ==> out[j] == before[j]
      invariant forall j :: at <= j < at + i ==> out[j] < 256 && out[j] == Drawn(t, x.draws(j))
    {
      out[at + i] :=
        if t.RandomChars? then Letter(x.draws(at + i) % 52)
        else if t.RandomDigits? then 48 + x.draws(at + i) % 10
        else x.draws(at + i) % 256;
    }
  }

  /** A size tag that asks for more bytes than a size has; its generation panics. */
  predicate TooWide(t: Tag) { t.DataSize? && t.len > 8 }

  /** The parser accepts every such tag up to its own limit. */
  lemma TooWideIsAccepted(n: nat)
    requires 8 < n <= MAX_RANDOM_LEN
    ensures ChainFits([DataSize(n)]) && TooWide(DataSize(n))
    ensures ParseChain(PrintTags([DataSize(n)])) == Ok([DataSize(n)])
  {
    ChainPrintParse([DataSize(n)]);
  }

  /** The segment of a tag that draws nothing. */
  function Fixed(t: Tag, x: Input): (s: seq<nat>)
    requires TagFits(t) && x.Valid() && !TooWide(t) && !IsRandom(t)
    ensures forall at: nat :: Segment(t, x, at, s)
  {
    match t
    case Bytes(bytes) => bytes
    case Timestamp => BigEndian(x.now, 4)
    case Data => x.data
    case DataString => if x.data != [] then x.b64(x.data) else []
    case DataSize(len) => BigEndianTail(|x.data|, 8, len); BigEndian(|x.data|, 8)[8 - len..]
  }

  method CopySegment(t: Tag, s: seq<nat>, out: array<nat>, offset: nat, ghost x: Input)
    requires Segment(t, x, offset, s) && offset + |s| <= out.Length
    modifies out
    ensures out[..offset] == old(out[..offset]) && |s| == EncodedLen(t, |x.data|)
    ensures Segment(t, x, offset, out[offset..offset + |s|])
  {
    Copy(out, offset, s);
  }

  /** Writes one tag's segment and says how long it is; nothing, for a panic, exactly if the tag is too wide. */
  method GenerateTag(t: Tag, x: Input, out: array<nat>, offset: nat)
    returns (r: Option<nat>)
    requires TagFits(t) && x.Valid()
    requires offset + EncodedLen(t, |x.data|) <= out.Length
    modifies out
    ensures r == if TooWide(t) then None else Some(EncodedLen(t, |x.data|))
    ensures out[..offset] == old(out[..offset])
    ensures r.Some? ==> Segment(t, x, offset, out[offset..offset + r.value])
  {
    if IsRandom(t) {
      FillRandom(t, x, out, offset);
    } else if TooWide(t) {
      return None;
    } else {
      CopySegment(t, Fixed(t, x), out, offset, x);
    }
    r := Some(EncodedLen(t, |x.data|));
  }

  /** The first `i` tags have filled `s`. */
  ghost predicate Filled(tags: seq<Tag>, i: nat, x: Input, s: seq<nat>)
    requires i <= |tags|
  {
    |s| == ChainLen(tags[..i], |x.data|) && Segments(tags[..i], x, s)
  }

  /** Generates the tag after the first `i`, at the end of what they filled. */
  method GenerateNext(tags: seq<Tag>, i: nat, x: Input, out: array<nat>, offset: nat)
    returns (next: Option<nat>)
    requires i < |tags| && TagFits(tags[i]) && x.Valid()
    requires out.Length == ChainLen(tags, |x.data|) && offset <= out.Length && Filled(tags, i, x, out[..offset])
    modifies out
    ensures next.None? <==> TooWide(tags[i])
    ensures next.Some? ==> next.value <= out.Length && Filled(tags, i + 1, x, out[..next.value])
  {
    ChainLenStep(tags, |x.data|, i);
    ghost var done := out[..offset];
    var n := GenerateTag(tags[i], x, out, offset);
    if n.None? {
      return None;
    }
    NextFilled(tags, i, x, done, out[..], n.value);
    next := Some(offset + n.value);
  }

  lemma NextFilled(tags: seq<Tag>, i: nat, x: Input, done: seq<nat>, out: seq<nat>, n: nat)
    requires i < |tags| && Segments(tags[..i], x, done) && |done| + n <= |out|
    requires out[..|done|] == done && Segment(tags[i], x, |done|, out[|done|..|done| + n])
    ensures Segments(tags[..i + 1], x, out[..|done| + n])
  {
    SegmentsStep(tags, i, x, done, out[|done|..|done| + n]);
    assert out[..|done| + n] == done + out[|done|..|done| + n];
  }

  lemma NoneFilled(tags: seq<Tag>, x: Input)
    ensures Filled(tags, 0, x, [])
  {
    assert tags[..0] == [];
  }

  lemma AllFilled(tags: seq<Tag>, x: Input, out: seq<nat>, offset: nat)
    requires offset <= |out| == ChainLen(tags, |x.data|) && Filled(tags, |tags|, x, out[..offset])
    ensures Segments(tags, x, out)
  {
    assert tags[..|tags|] == tags && out[..offset] == out;
  }

  /** The loop over the tags; false for a panic. */
  method GenerateAll(tags: seq<Tag>, x: Input, out: array<nat>) returns (done: bool)
    requires (forall i :: 0 <= i < |tags| ==> TagFits(tags[i])) && x.Valid()
    requires out.Length == ChainLen(tags, |x.data|)
    modifies out
    ensures !done <==> exists i :: 0 <= i < |tags| && TooWide(tags[i])
    ensures done ==> Segments(tags, x, out[..])
  {
    var offset := 0;
    NoneFilled(tags, x);
    assert out[..0] == [];
    for i := 0 to |tags|
      invariant 0 <= offset <= out.Length && Filled(tags, i, x, out[..offset])
      invariant forall k :: 0 <= k < i ==> !TooWide(tags[k])
    {
      var next := GenerateNext(tags, i, x, out, offset);
      if next.None? {
        return false;
      }
      offset := next.value;
    }
    AllFilled(tags, x, out[..], offset);
    done := true;
  }

  /**
   Generates a packet: exactly as long as announced, and nothing but the tags'
   segments. It panics exactly if some size tag is too wide.
   */
  method Generate(tags: seq<Tag>, x: Input) returns (r: Option<array<nat>>)
    requires (forall i :: 0 <= i < |tags| ==> TagFits(tags[i])) && x.Valid()
    ensures r.None? <==> exists i :: 0 <= i < |tags| && TooWide(tags[i])
    ensures r.Some? ==> r.value.Length == ChainLen(tags, |x.data|) && Segments(tags, x, r.value[..])
  {
    var out := new nat[ChainLen(tags, |x.data|)](i => 0);
    var done := GenerateAll(tags, x, out);
    r := if done then Some(out) else None;
  }

  lemma ChainLenStep(tags: seq<Tag>, dataLen: nat, i: nat)
    requires i < |tags|
    ensures ChainLen(tags[..i + 1], dataLen) == ChainLen(tags[..i], dataLen) + EncodedLen(tags[i], dataLen)
    ensures ChainLen(tags[..i + 1], dataLen) <= ChainLen(tags, dataLen)
  {
    assert tags[..i + 1][..i] == tags[..i];
    ChainLenMonotone(tags, dataLen, i + 1);
  }

  lemma SegmentsStep(tags: seq<Tag>, i: nat, x: Input, s: seq<nat>, seg: seq<nat>)
    requires i < |tags| && Segments(tags[..i], x, s) && Segment(tags[i], x, |s|, seg)
    ensures Segments(tags[..i + 1], x, s + seg)
  {
    SegmentsExtend(tags[..i], tags[i], x, s, seg);
    assert tags[..i + 1] == tags[..i] + [tags[i]];
  }

  lemma {:induction false} ChainLenMonotone(tags: seq<Tag>, dataLen: nat, i: nat)
    requires i <= |tags|
    ensures ChainLen(tags[..i], dataLen) <= ChainLen(tags, dataLen)
    decreases |tags| - i
  {
    if i < |tags| {
      assert tags[..i + 1][..i] == tags[..i];
      ChainLenMonotone(tags, dataLen, i + 1);
    } else {
      assert tags[..i] == tags;
    }
  }
}
