/**
 How long a seed of the buffered random source lasts, and what the bytes taken
 from it are: a mebibyte of its keystream, in order.
 */
module SeedBudget {
  import opened BufferedRng

  const MEBIBYTE: nat := 1_048_576

  /** A new seed is drawn exactly when a mebibyte of the old one's keystream is gone. */
  lemma ReadyGone(s: Source, generation: nat)
    requires s.state.Valid() && s.state.seed < s.drawn
    ensures s.state.Gone() <= MEBIBYTE
    ensures var t := Ready(s, generation);
      && t.state.Valid() && t.state.Gone() == (if s.state.Gone() == MEBIBYTE then 0 else s.state.Gone())
      && t.drawn == (if s.state.Gone() == MEBIBYTE then s.drawn + 1 else s.drawn)
      && t.state.seed == (if s.state.Gone() == MEBIBYTE then s.drawn else s.state.seed)
  {
    ReadyFacts(s, generation);
  }

  /** Where the next bytes after `k` of them, counted from the start of the first seed, come from. */
  predicate After(s: Source, k: nat, t: Source) {
    && t.state.Valid()
    && (k <= MEBIBYTE ==> t.state.seed == s.state.seed && t.drawn == s.drawn && t.state.Gone() == k)
    && (k > MEBIBYTE ==>
          var q := (k - 1) / MEBIBYTE;
          t.state.seed == s.drawn + q - 1 && t.drawn == s.drawn + q && t.state.Gone() == k - q * MEBIBYTE)
  }

  /** Byte `k` of what a seed and its successors yield. */
  predicate Yields(s: Source, k: nat, p: Position) {
    && p.seed == (if k < MEBIBYTE then s.state.seed else s.drawn + k / MEBIBYTE - 1)
    && p.Linear() == k % MEBIBYTE
  }

  lemma NextAfter(s: Source, k: nat, t: Source, u: Source)
    requires s.state.Valid() && After(s, k, t) && u.state.Valid()
    requires u.state.Gone() == (if t.state.Gone() == MEBIBYTE then 0 else t.state.Gone()) + 1
    requires u.drawn == (if t.state.Gone() == MEBIBYTE then t.drawn + 1 else t.drawn)
    requires u.state.seed == (if t.state.Gone() == MEBIBYTE then t.drawn else t.state.seed)
    ensures After(s, k + 1, u)
  {
  }

  lemma TakeNext(s: Source, k: nat, t: Source, generation: nat)
    requires s.state.Valid() && t.state.Valid() && t.state.seed < t.drawn && After(s, k, t)
    ensures var r := Ready(t, generation);
      && r.state.block > 0 && Yields(s, k, Head(r.state))
      && After(s, k + 1, r.(state := r.state.(used := r.state.used + 1)))
  {
    ReadyFacts(t, generation);
    ReadyGone(t, generation);
    var r := Ready(t, generation);
    NextAfter(s, k, t, r.(state := r.state.(used := r.state.used + 1)));
    HeadYields(s, k, t, r);
  }

  lemma HeadYields(s: Source, k: nat, t: Source, r: Source)
    requires s.state.Valid() && After(s, k, t) && r.state.Valid() && r.state.block > 0
    requires r.state.Gone() == (if t.state.Gone() == MEBIBYTE then 0 else t.state.Gone()) == Head(r.state).Linear()
    requires r.state.seed == (if t.state.Gone() == MEBIBYTE then t.drawn else t.state.seed)
    ensures Yields(s, k, Head(r.state))
  {
  }

  ghost predicate Yielded(s: Source, k: nat, p: seq<Position>) {
    forall i :: 0 <= i < |p| ==> Yields(s, k + i, p[i])
  }

  lemma YieldedMore(s: Source, k: nat, p: seq<Position>, q: Position)
    requires Yielded(s, k, p) && Yields(s, k + |p|, q)
    ensures Yielded(s, k, p + [q])
  {
  }

  lemma Continue(s: Source, k: nat, before: Taken, generation: nat, after: Taken)
    requires s.state.Valid() && before.source.state.Valid() && before.source.state.seed < before.source.drawn
    requires After(s, k + |before.positions|, before.source) && Yielded(s, k, before.positions)
    requires var r := Ready(before.source, generation);
      && r.state.block > 0
      && after == Taken(r.(state := r.state.(used := r.state.used + 1)), before.positions + [Head(r.state)])
    ensures After(s, k + |after.positions|, after.source) && Yielded(s, k, after.positions)
  {
    TakeNext(s, k + |before.positions|, before.source, generation);
    YieldedMore(s, k, before.positions, Head(Ready(before.source, generation).state));
  }

  /**
   A fill reads each seed's keystream from where it stopped to the end of its
   mebibyte, byte after byte, and then the next seed's from its start.
   */
  lemma {:induction false} TakeExactly(s: Source, n: nat, generation: nat)
    requires s.state.Valid() && s.state.seed < s.drawn
    ensures After(s, s.state.Gone() + n, Take(s, n, generation).source)
    ensures Yielded(s, s.state.Gone(), Take(s, n, generation).positions)
  {
    if n == 0 {
      ReadyGone(s, generation);
    } else {
      TakeExactly(s, n - 1, generation);
      Continue(s, s.state.Gone(), Take(s, n - 1, generation), generation, Take(s, n, generation));
    }
  }
}
