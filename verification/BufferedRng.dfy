/**
 The buffered random source: one keystream per seed, refilled a block at a
 time, reseeded every megabyte and after a fork. Seeds are numbered in the
 order they are drawn from the operating system, so a drawn seed is a new one.
 */
module BufferedRng {

  const BUFFER_SIZE: nat := 256
  const RESEED_INTERVAL: nat := 0x10_0000

  /** A keystream position. */
  datatype Position = Position(seed: nat, block: nat, offset: nat) {
    function Linear(): nat { block * BUFFER_SIZE + offset }
  }

  // ---- One state, a byte at a time ----

  datatype State = State(seed: nat, block: nat, used: nat, sinceReseed: nat, generation: nat) {
    /** What every reachable state satisfies: the reseed counter counts blocks, and there are at most 4096. */
    predicate Valid() {
      && sinceReseed == BUFFER_SIZE * block
      && block <= 4096
      && used <= BUFFER_SIZE
      && (block == 0 ==> used == BUFFER_SIZE)
    }

    /** How many bytes of this seed's keystream are gone. */
    function Gone(): nat
      requires Valid()
    {
      if block == 0 then 0 else (block - 1) * BUFFER_SIZE + used
    }
  }

  function Reseeded(seed: nat, generation: nat): State {
    State(seed, 0, BUFFER_SIZE, 0, generation)
  }

  /** A state, and the number of seeds drawn so far. */
  datatype Source = Source(state: State, drawn: nat)

  function Refilled(s: Source, generation: nat): Source {
    var t := if s.state.sinceReseed >= RESEED_INTERVAL then Source(Reseeded(s.drawn, generation), s.drawn + 1) else s;
    t.(state := t.state.(block := t.state.block + 1, used := 0, sinceReseed := t.state.sinceReseed + BUFFER_SIZE))
  }

  /** The source with at least one byte buffered. */
  function Ready(s: Source, generation: nat): Source {
    if s.state.used == BUFFER_SIZE then Refilled(s, generation) else s
  }

  function Head(s: State): Position
    requires s.block > 0
  {
    Position(s.seed, s.block - 1, s.used)
  }

  lemma ReadyFacts(s: Source, generation: nat)
    requires s.state.Valid() && s.state.seed < s.drawn
    ensures var t := Ready(s, generation);
      && t.state.Valid() && t.state.block > 0 && t.state.used < BUFFER_SIZE
      && t.state.seed < t.drawn && s.drawn <= t.drawn
      && Head(t.state).Linear() == t.state.Gone()
      && if t.drawn == s.drawn
         then && t.state.seed == s.state.seed && t.state.Gone() == s.state.Gone()
              && t.state.generation == s.state.generation
         else t.state.seed == s.drawn && t.drawn == s.drawn + 1 && t.state.generation == generation
  {
  }

  datatype Taken = Taken(source: Source, positions: seq<Position>)

  /** The next `n` bytes, one at a time. */
  function Take(s: Source, n: nat, generation: nat): (t: Taken)
    requires s.state.Valid() && s.state.seed < s.drawn
    ensures t.source.state.Valid() && t.source.state.seed < t.source.drawn && |t.positions| == n
  {
    if n == 0 then Taken(s, []) else
    var before := Take(s, n - 1, generation);
    ReadyFacts(before.source, generation);
    var r := Ready(before.source, generation);
    Taken(r.(state := r.state.(used := r.state.used + 1)), before.positions + [Head(r.state)])
  }

  /** A fill: a copy made by a fork is reseeded before its first byte. */
  function Start(s: Source, generation: nat): (t: Source)
    requires s.state.Valid() && s.state.seed < s.drawn
    ensures t.state.Valid() && t.state.seed < t.drawn
  {
    if s.state.generation != generation then Source(Reseeded(s.drawn, generation), s.drawn + 1) else s
  }

  // ---- The buffer in place ----

  type Stream = (nat, nat, nat) -> bv8

  function Bytes(k: Stream, p: seq<Position>): (r: seq<bv8>)
    ensures |r| == |p|
    ensures forall i :: 0 <= i < |p| ==> r[i] == k(p[i].seed, p[i].block, p[i].offset)
  {
    seq(|p|, i requires 0 <= i < |p| => k(p[i].seed, p[i].block, p[i].offset))
  }

  /** Within one buffer, taking bytes one at a time is taking a slice. */
  lemma {:induction false} TakeSlice(s: Source, n: nat, generation: nat)
    requires s.state.Valid() && s.state.seed < s.drawn && s.state.block > 0 && s.state.used + n <= BUFFER_SIZE
    ensures var t := Take(s, n, generation);
      && t.source == s.(state := s.state.(used := s.state.used + n))
      && forall i :: 0 <= i < n ==> t.positions[i] == Position(s.state.seed, s.state.block - 1, s.state.used + i)
  {
    if n > 0 {
      TakeSlice(s, n - 1, generation);
    }
  }

  /** Refilling an empty buffer first changes nothing about what is taken. */
  lemma {:induction false} TakeReady(s: Source, n: nat, generation: nat)
    requires s.state.Valid() && s.state.seed < s.drawn && n > 0
    ensures Ready(s, generation).state.Valid() && Ready(s, generation).state.seed < Ready(s, generation).drawn
    ensures Take(Ready(s, generation), n, generation) == Take(s, n, generation)
    decreases n
  {
    ReadyFacts(s, generation);
    if n > 1 {
      TakeReady(s, n - 1, generation);
    } else {
      assert Take(s, 0, generation).source == s;
      assert Take(Ready(s, generation), 0, generation).source == Ready(s, generation);
    }
  }

  lemma {:induction false} TakeMore(s: Source, m: nat, n: nat, generation: nat)
    requires s.state.Valid() && s.state.seed < s.drawn
    ensures var a := Take(s, m, generation); var b := Take(a.source, n, generation);
      Take(s, m + n, generation) == Taken(b.source, a.positions + b.positions)
    decreases n
  {
    if n > 0 {
      TakeMore(s, m, n - 1, generation);
      assert m + n - 1 == m + (n - 1);
    } else {
      assert Take(s, m, generation).positions + [] == Take(s, m, generation).positions;
    }
  }

  /** The operating system's generator: draws are numbered. */
  class Entropy {
    var drawn: nat

    constructor ()
      ensures drawn == 0
    {
      drawn := 0;
    }

    method Draw() returns (seed: nat)
      modifies this
      ensures seed == old(drawn) && drawn == old(drawn) + 1
    {
      seed := drawn;
      drawn := drawn + 1;
    }
  }

  class FastRngState {
    var seed: nat
    var block: nat
    const buffer: array<bv8>
    var used: nat
    var sinceReseed: nat
    var generation: nat

    ghost function Value(): State
      reads this
    {
      State(seed, block, used, sinceReseed, generation)
    }

    /** The unread part of the buffer is this seed's keystream for the last block. */
    ghost predicate Valid(k: Stream)
      reads this, buffer
    {
      && Value().Valid()
      && buffer.Length == BUFFER_SIZE
      && (block > 0 ==> forall i :: used <= i < BUFFER_SIZE ==> buffer[i] == k(seed, block - 1, i))
    }

    constructor (k: Stream, entropy: Entropy, forkGeneration: nat)
      modifies entropy
      ensures Valid(k) && fresh(buffer)
      ensures Value() == Reseeded(old(entropy.drawn), forkGeneration) && entropy.drawn == old(entropy.drawn) + 1
    {
      seed, block, used, sinceReseed, generation := 0, 0, BUFFER_SIZE, RESEED_INTERVAL, 0;
      buffer := new bv8[BUFFER_SIZE];
      new;
      Reseed(k, entropy, forkGeneration);
    }

    method Reseed(k: Stream, entropy: Entropy, forkGeneration: nat)
      requires buffer.Length == BUFFER_SIZE
      modifies this`seed, this`block, this`used, this`sinceReseed, this`generation, entropy
      ensures Valid(k)
      ensures Value() == Reseeded(old(entropy.drawn), forkGeneration) && entropy.drawn == old(entropy.drawn) + 1
    {
      seed := entropy.Draw();
      block := 0;
      sinceReseed := 0;
      generation := forkGeneration;
      used := BUFFER_SIZE;
    }

    method Refill(k: Stream, entropy: Entropy, forkGeneration: nat)
      requires Valid(k) && used == BUFFER_SIZE
      modifies this, buffer, entropy
      ensures Valid(k)
      ensures Source(Value(), entropy.drawn) == Refilled(Source(old(Value()), old(entropy.drawn)), forkGeneration)
    {
      if sinceReseed >= RESEED_INTERVAL {
        Reseed(k, entropy, forkGeneration);
      }
      var b := block;
      block := block + 1;
      forall i | 0 <= i < BUFFER_SIZE {
        buffer[i] := k(seed, b, i);
      }
      used := 0;
      sinceReseed := sinceReseed + BUFFER_SIZE;
    }

    /** Copies the next `take` buffered bytes to `out[at..]`. */
    method Copy(k: Stream, out: array<bv8>, at: nat, take: nat, ghost drawn: nat, ghost forkGeneration: nat)
      requires Valid(k) && block > 0 && used + take <= BUFFER_SIZE && at + take <= out.Length && out != buffer
      requires seed < drawn
      modifies this`used, out
      ensures Valid(k)
      ensures var t := Take(Source(old(Value()), drawn), take, forkGeneration);
        && Source(Value(), drawn) == t.source
        && out[at..at + take] == Bytes(k, t.positions)
      ensures out[..at] == old(out[..at])
    {
      TakeSlice(Source(Value(), drawn), take, forkGeneration);
      ghost var before := out[..];
      var first := used;
      for i := 0 to take
        invariant used == first
        invariant forall j :: 0 <= j < out.Length ==>
                    out[j] == if at <= j < at + i then buffer[first + j - at] else before[j]
      {
        out[at + i] := buffer[first + i];
      }
      used := first + take;
    }

    /** One turn of the fill loop: refill if the buffer is empty, then copy what fits. */
    method Chunk(k: Stream, out: array<bv8>, written: nat, entropy: Entropy, forkGeneration: nat) returns (take: nat)
      requires Valid(k) && out != buffer && seed < entropy.drawn && written < out.Length
      modifies this, buffer, entropy, out
      ensures Valid(k) && seed < entropy.drawn && 0 < take <= out.Length - written
      ensures var t := Take(Source(old(Value()), old(entropy.drawn)), take, forkGeneration);
        && Source(Value(), entropy.drawn) == t.source
        && out[written..written + take] == Bytes(k, t.positions)
      ensures out[..written] == old(out[..written])
    {
      ghost var before := Source(Value(), entropy.drawn);
      ReadyFacts(before, forkGeneration);
      if used == BUFFER_SIZE {
        Refill(k, entropy, forkGeneration);
      }
      take := if out.Length - written < BUFFER_SIZE - used then out.Length - written else BUFFER_SIZE - used;
      Copy(k, out, written, take, entropy.drawn, forkGeneration);
      TakeReady(before, take, forkGeneration);
    }

    /**
     Fills `out`, whole buffers at a time. What it hands out is the next bytes
     of the keystream taken one by one, from a fresh seed if the process
     forked since this state was seeded.
     */
    method Fill(k: Stream, out: array<bv8>, entropy: Entropy, forkGeneration: nat)
      requires Valid(k) && out != buffer && seed < entropy.drawn
      modifies this, buffer, entropy, out
      ensures Valid(k) && seed < entropy.drawn
      ensures var start := Start(Source(old(Value()), old(entropy.drawn)), forkGeneration);
        var t := Take(start, out.Length, forkGeneration);
        && Source(Value(), entropy.drawn) == t.source
        && out[..] == Bytes(k, t.positions)
    {
      ghost var s := Start(Source(Value(), entropy.drawn), forkGeneration);
      if generation != forkGeneration {
        Reseed(k, entropy, forkGeneration);
      }
      var written := 0;
      while written < out.Length
        invariant Valid(k) && written <= out.Length && seed < entropy.drawn
        invariant var t := Take(s, written, forkGeneration);
          Source(Value(), entropy.drawn) == t.source && out[..written] == Bytes(k, t.positions)
      {
        ghost var t := Take(s, written, forkGeneration);
        var take := Chunk(k, out, written, entropy, forkGeneration);
        TakeMore(s, written, take, forkGeneration);
        ghost var u := Take(t.source, take, forkGeneration);
        BytesOfConcat(k, t.positions, u.positions);
        assert out[..written + take] == out[..written] + out[written..written + take];
        written := written + take;
      }
      assert out[..] == out[..written];
    }
  }

  lemma BytesOfConcat(k: Stream, p: seq<Position>, q: seq<Position>)
    ensures Bytes(k, p + q) == Bytes(k, p) + Bytes(k, q)
  {
  }

  // ---- Threads, processes and forks ----

  /** A thread's own state, and the process it runs in. */
  datatype Thread = Thread(process: nat, state: State)

  /** `generations` holds each process's fork counter; `handed` every position handed out anywhere, in order. */
  datatype World = World(threads: seq<Thread>, generations: seq<nat>, drawn: nat, handed: seq<Position>)

  datatype Event = FillBytes(thread: nat, n: nat) | Fork(thread: nat) | Spawn(process: nat)

  predicate Enabled(w: World, e: Event) {
    match e
    case FillBytes(t, _) => t < |w.threads|
    case Fork(t) => t < |w.threads|
    case Spawn(p) => p < |w.generations|
  }

  predicate Formed(w: World) {
    && (forall t :: 0 <= t < |w.threads| ==> w.threads[t].process < |w.generations|)
    && (forall t :: 0 <= t < |w.threads| ==> w.threads[t].state.Valid() && w.threads[t].state.seed < w.drawn)
  }

  /** The world after thread `t` took on a source and handed out some positions. */
  function Handed(w: World, t: nat, s: Source, positions: seq<Position>): World
    requires t < |w.threads|
  {
    w.(threads := w.threads[t := w.threads[t].(state := s.state)], drawn := s.drawn, handed := w.handed + positions)
  }

  function SourceOf(w: World, t: nat): Source
    requires t < |w.threads|
  {
    Source(w.threads[t].state, w.drawn)
  }

  function GenerationOf(w: World, t: nat): nat
    requires Formed(w) && t < |w.threads|
  {
    w.generations[w.threads[t].process]
  }

  /** A fork copies the forking thread into a process whose counter has moved on. */
  function Next(w: World, e: Event): World
    requires Formed(w) && Enabled(w, e)
  {
    match e
    case FillBytes(t, n) =>
      var taken := Take(Start(SourceOf(w, t), GenerationOf(w, t)), n, GenerationOf(w, t));
      Handed(w, t, taken.source, taken.positions)
    case Fork(t) =>
      w.(threads := w.threads + [Thread(|w.generations|, w.threads[t].state)],
         generations := w.generations + [GenerationOf(w, t) + 1])
    case Spawn(p) =>
      w.(threads := w.threads + [Thread(p, Reseeded(w.drawn, w.generations[p]))], drawn := w.drawn + 1)
  }

  /** A thread whose state was seeded in its own process since the last fork. */
  predicate Live(w: World, t: nat)
    requires Formed(w) && t < |w.threads|
  {
    w.threads[t].state.generation == GenerationOf(w, t)
  }

  ghost predicate SeedsUnshared(w: World)
    requires Formed(w)
  {
    forall i, j :: 0 <= i < j < |w.threads| && Live(w, i) && Live(w, j) ==>
      w.threads[i].state.seed != w.threads[j].state.seed
  }

  /** Nothing handed out lies ahead of a live thread on its own keystream. */
  ghost predicate HandedIsPast(w: World)
    requires Formed(w)
  {
    forall p, t :: 0 <= p < |w.handed| && 0 <= t < |w.threads| && Live(w, t)
                   && w.handed[p].seed == w.threads[t].state.seed ==>
      w.handed[p].Linear() < w.threads[t].state.Gone()
  }

  ghost predicate Invariant(w: World) {
    && Formed(w)
    && (forall t :: 0 <= t < |w.threads| ==> w.threads[t].state.generation <= GenerationOf(w, t))
    && SeedsUnshared(w)
    && (forall p :: 0 <= p < |w.handed| ==> w.handed[p].seed < w.drawn)
    && HandedIsPast(w)
    && (forall p, q :: 0 <= p < q < |w.handed| ==> w.handed[p] != w.handed[q])
  }

  /** What a thread's move must respect for the others: its seed is its own or new, its keystream only advances. */
  predicate Advances(w: World, t: nat, s: Source)
    requires Formed(w) && t < |w.threads|
  {
    && s.state.Valid() && s.state.seed < s.drawn && s.state.generation == GenerationOf(w, t)
    && if s.drawn == w.drawn
       then Live(w, t) && s.state.seed == w.threads[t].state.seed && w.threads[t].state.Gone() <= s.state.Gone()
       else w.drawn < s.drawn && w.drawn <= s.state.seed
  }

  lemma MoveKeepsFormed(w: World, t: nat, s: Source, positions: seq<Position>)
    requires Invariant(w) && t < |w.threads| && Advances(w, t, s)
    ensures var w' := Handed(w, t, s, positions);
      && Formed(w') && Live(w', t)
      && (forall i :: 0 <= i < |w.threads| ==> w'.threads[i].state.generation <= GenerationOf(w', i))
      && (forall i :: 0 <= i < |w.threads| && i != t ==> (Live(w', i) <==> Live(w, i)))
  {
  }

  lemma MoveKeepsSeeds(w: World, t: nat, s: Source, positions: seq<Position>)
    requires Invariant(w) && t < |w.threads| && Advances(w, t, s) && Formed(Handed(w, t, s, positions))
    ensures SeedsUnshared(Handed(w, t, s, positions))
  {
  }

  lemma MoveKeepsPast(w: World, t: nat, s: Source)
    requires Invariant(w) && t < |w.threads| && Advances(w, t, s) && Formed(Handed(w, t, s, []))
    ensures HandedIsPast(Handed(w, t, s, []))
  {
  }

  /** Reseeding or refilling hands out nothing and keeps the invariant. */
  lemma MoveKeeps(w: World, t: nat, s: Source)
    requires Invariant(w) && t < |w.threads| && Advances(w, t, s)
    ensures Invariant(Handed(w, t, s, [])) && Live(Handed(w, t, s, []), t)
  {
    MoveKeepsFormed(w, t, s, []);
    MoveKeepsSeeds(w, t, s, []);
    MoveKeepsPast(w, t, s);
    assert w.handed + [] == w.handed;
  }

  /** The world after thread `t`, with a byte buffered, handed it out. */
  function Emitted(w: World, t: nat): World
    requires t < |w.threads| && w.threads[t].state.block > 0
  {
    var st := w.threads[t].state;
    Handed(w, t, Source(st.(used := st.used + 1), w.drawn), [Head(st)])
  }

  /** The position a live thread hands out is new. */
  lemma EmitKeeps(w: World, t: nat)
    requires Invariant(w) && t < |w.threads| && Live(w, t)
    requires w.threads[t].state.block > 0 && w.threads[t].state.used < BUFFER_SIZE
    ensures Invariant(Emitted(w, t)) && Live(Emitted(w, t), t)
  {
  }

  lemma HandedTwice(w: World, t: nat, a: Source, p: seq<Position>, b: Source, q: seq<Position>)
    requires t < |w.threads|
    ensures Handed(Handed(w, t, a, p), t, b, q) == Handed(w, t, b, p + q)
  {
  }

  /** The world with a byte buffered for thread `t`. */
  function Readied(w: World, t: nat): World
    requires Formed(w) && t < |w.threads|
  {
    Handed(w, t, Ready(SourceOf(w, t), GenerationOf(w, t)), [])
  }

  lemma ReadiedKeeps(w: World, t: nat)
    requires Invariant(w) && t < |w.threads| && Live(w, t)
    ensures var u := Readied(w, t);
      Invariant(u) && Live(u, t) && u.threads[t].state.block > 0 && u.threads[t].state.used < BUFFER_SIZE
  {
    ReadyFacts(SourceOf(w, t), GenerationOf(w, t));
    MoveKeeps(w, t, Ready(SourceOf(w, t), GenerationOf(w, t)));
  }

  function TakenWorld(w: World, t: nat, n: nat): World
    requires Formed(w) && t < |w.threads|
  {
    var taken := Take(SourceOf(w, t), n, GenerationOf(w, t));
    Handed(w, t, taken.source, taken.positions)
  }

  lemma TakenOneMore(w: World, t: nat, n: nat)
    requires Formed(w) && t < |w.threads| && n > 0 && Formed(TakenWorld(w, t, n - 1))
    ensures var u := Readied(TakenWorld(w, t, n - 1), t);
      u.threads[t].state.block > 0 && TakenWorld(w, t, n) == Emitted(u, t)
  {
    ReadyFacts(Take(SourceOf(w, t), n - 1, GenerationOf(w, t)).source, GenerationOf(w, t));
  }

  /** A live thread takes any number of bytes. */
  lemma {:induction false} TakeKeeps(w: World, t: nat, n: nat)
    requires Invariant(w) && t < |w.threads| && Live(w, t)
    ensures Invariant(TakenWorld(w, t, n)) && Live(TakenWorld(w, t, n), t)
    decreases n
  {
    if n == 0 {
      assert w.threads[t := w.threads[t]] == w.threads && w.handed + [] == w.handed;
      assert TakenWorld(w, t, 0) == w;
    } else {
      TakeKeeps(w, t, n - 1);
      TakenOneMore(w, t, n);
      ReadiedKeeps(TakenWorld(w, t, n - 1), t);
      EmitKeeps(Readied(TakenWorld(w, t, n - 1), t), t);
    }
  }

  lemma FillKeeps(w: World, t: nat, n: nat)
    requires Invariant(w) && t < |w.threads|
    ensures Invariant(Next(w, FillBytes(t, n)))
  {
    var g := GenerationOf(w, t);
    var s := Start(SourceOf(w, t), g);
    MoveKeeps(w, t, s);
    var u := Handed(w, t, s, []);
    TakeKeeps(u, t, n);
    var taken := Take(s, n, g);
    HandedTwice(w, t, s, [], taken.source, taken.positions);
    assert [] + taken.positions == taken.positions;
  }

  /** The child's copy is not live: its process has forked since it was seeded. */
  lemma ForkKeeps(w: World, t: nat)
    requires Invariant(w) && t < |w.threads|
    ensures Invariant(Next(w, Fork(t)))
  {
    var w' := Next(w, Fork(t));
    var n := |w.threads|;
    assert forall i :: 0 <= i < n ==> w'.threads[i] == w.threads[i];
    assert Formed(w') && !Live(w', n);
    assert forall i :: 0 <= i < n ==> (Live(w', i) <==> Live(w, i));
  }

  lemma SpawnKeeps(w: World, p: nat)
    requires Invariant(w) && p < |w.generations|
    ensures Invariant(Next(w, Spawn(p)))
  {
  }

  /** One process, no thread yet. */
  const INITIAL := World([], [0], 0, [])

  ghost predicate IsRun(run: seq<World>, events: seq<Event>) {
    && |run| == |events| + 1
    && run[0] == INITIAL
    && forall i :: 0 <= i < |events| ==>
      Enabled(run[i], events[i]) && (Formed(run[i]) ==> run[i + 1] == Next(run[i], events[i]))
  }

  lemma {:induction false} RunKeepsInvariant(run: seq<World>, events: seq<Event>, i: nat)
    requires IsRun(run, events) && i < |run|
    ensures Invariant(run[i])
  {
    if i > 0 {
      RunKeepsInvariant(run, events, i - 1);
      match events[i - 1]
      case FillBytes(t, n) => FillKeeps(run[i - 1], t, n);
      case Fork(t) => ForkKeeps(run[i - 1], t);
      case Spawn(p) => SpawnKeeps(run[i - 1], p);
    }
  }

  /** Over any run of fills, forks and new threads, no keystream position is handed out twice, anywhere. */
  lemma NeverTwice(run: seq<World>, events: seq<Event>, i: nat, p: nat, q: nat)
    requires IsRun(run, events) && i < |run| && p < q < |run[i].handed|
    ensures run[i].handed[p] != run[i].handed[q]
  {
    RunKeepsInvariant(run, events, i);
  }

  /** In every reachable state the reseed counter counts blocks, and no keystream goes past 4096 of them. */
  lemma BlocksAreCounted(run: seq<World>, events: seq<Event>, i: nat, t: nat)
    requires IsRun(run, events) && i < |run| && t < |run[i].threads|
    ensures var st := run[i].threads[t].state;
      st.sinceReseed == BUFFER_SIZE * st.block && st.block <= 4096
  {
    RunKeepsInvariant(run, events, i);
  }
}
