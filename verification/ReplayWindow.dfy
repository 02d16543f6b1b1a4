/**
 The anti-replay window of a session: a 1024-bit ring bitmap and the counter
 after the highest one received, standing for the unbounded set of counters
 received so far.
 */
module ReplayWindow {
  import opened Words

  const WORD_SIZE: nat := 64
  const N_WORDS: nat := 16
  const N_BITS: nat := 1024
  const U64_LIMIT: nat := 0x1_0000_0000_0000_0000

  datatype CounterResult = Accepted | InvalidCounter | DuplicateCounter

  /**
   What the bitmap stands for: every counter accepted so far, the counter
   after the highest of them, and how many were accepted.
   */
  datatype History = History(next: nat, receiveCnt: nat, received: set<nat>) {

    /** Received counters lie below `next`. */
    ghost predicate Valid() {
      forall c <- received :: c < next
    }

    predicate Fresh(counter: nat) {
      counter + N_BITS >= next && counter !in received
    }

    /** The history after `counter` was marked successfully. */
    function Marked(counter: nat): History {
      History(if counter < next then next else counter + 1, receiveCnt, received + {counter})
    }
  }

  // ---- The bitmap as a ring of 1024 slots ----

  /** The bit a counter occupies in the ring. */
  predicate Slot(bitmap: seq<bv64>, counter: nat)
    requires |bitmap| == N_WORDS
  {
    Bit(bitmap[counter % N_BITS / WORD_SIZE], counter % N_BITS % WORD_SIZE)
  }

  /** The ring agrees with the history on the window `[next - 1024, next)`. */
  ghost predicate Represents(bitmap: seq<bv64>, h: History) {
    && |bitmap| == N_WORDS
    && h.Valid()
    && forall c: nat :: h.next <= c + N_BITS && c < h.next ==> (Slot(bitmap, c) <==> c in h.received)
  }

  lemma SameSlot(c: nat, d: nat)
    requires c < d + N_BITS && d < c + N_BITS
    ensures c % N_BITS == d % N_BITS <==> c == d
  {
  }

  /** Two counters a whole ring apart share a slot. */
  lemma RingTurn(bitmap: seq<bv64>, c: nat)
    requires |bitmap| == N_WORDS
    ensures Slot(bitmap, c + N_BITS) == Slot(bitmap, c)
  {
    assert (c + N_BITS) % N_BITS == c % N_BITS;
  }

  lemma WordOf(c: nat)
    ensures c % N_BITS / WORD_SIZE == c / WORD_SIZE % N_WORDS
  {
    var turn, word, bit := c / N_BITS, c % N_BITS / WORD_SIZE, c % N_BITS % WORD_SIZE;
    assert c == (N_WORDS * turn + word) * WORD_SIZE + bit;
    assert c / WORD_SIZE == N_WORDS * turn + word;
  }

  lemma WordsApart(a: nat, b: nat)
    requires a < b + N_WORDS && b < a + N_WORDS
    ensures a % N_WORDS == b % N_WORDS <==> a == b
  {
  }

  /** The counters of a ring turn that share the word of an aligned counter. */
  lemma SameWord(i: nat, d: nat)
    requires i % WORD_SIZE == 0
    requires d < i + N_BITS && i + WORD_SIZE <= d + N_BITS
    ensures d % N_BITS / WORD_SIZE == i % N_BITS / WORD_SIZE <==> i <= d < i + WORD_SIZE
  {
    WordOf(i);
    WordOf(d);
    WordsApart(i / WORD_SIZE, d / WORD_SIZE);
  }

  /**
   The bitmap with every slot of `[from, to)` cleared, seen over one turn of
   the ring starting at `from`.
   */
  ghost predicate ClearedUpTo(before: seq<bv64>, bitmap: seq<bv64>, from: nat, to: nat) {
    && |before| == |bitmap| == N_WORDS
    && forall d: nat :: from <= d < from + N_BITS ==> (Slot(bitmap, d) <==> to <= d && Slot(before, d))
  }

  lemma ClearOneMore(before: seq<bv64>, mid: seq<bv64>, after: seq<bv64>, from: nat, i: nat)
    requires ClearedUpTo(before, mid, from, i)
    requires from <= i < from + N_BITS
    requires |after| == N_WORDS
    requires forall d: nat :: Slot(after, d) <==> d % N_BITS != i % N_BITS && Slot(mid, d)
    ensures ClearedUpTo(before, after, from, i + 1)
  {
  }

  lemma ClearWordMore(before: seq<bv64>, mid: seq<bv64>, after: seq<bv64>, from: nat, i: nat)
    requires ClearedUpTo(before, mid, from, i)
    requires from <= i && i + WORD_SIZE < from + N_BITS
    requires i % WORD_SIZE == 0
    requires |after| == N_WORDS
    requires forall d: nat ::
      Slot(after, d) <==> d % N_BITS / WORD_SIZE != i % N_BITS / WORD_SIZE && Slot(mid, d)
    ensures ClearedUpTo(before, after, from, i + WORD_SIZE)
  {
    forall d: nat | from <= d < from + N_BITS
      ensures Slot(after, d) <==> i + WORD_SIZE <= d && Slot(before, d)
    {
      SameWord(i, d);
    }
  }

  /** Skipping ahead: clearing `[next, counter)` and setting `counter` is what marking it means. */
  lemma SkipAhead(before: seq<bv64>, cleared: seq<bv64>, after: seq<bv64>, h: History, counter: nat)
    requires Represents(before, h)
    requires h.next <= counter < h.next + N_BITS
    requires ClearedUpTo(before, cleared, h.next, counter)
    requires |after| == N_WORDS
    requires forall d: nat :: Slot(after, d) <==> d % N_BITS == counter % N_BITS || Slot(cleared, d)
    ensures Represents(after, h.Marked(counter))
  {
    forall c: nat | counter + 1 <= c + N_BITS && c < counter + 1
      ensures Slot(after, c) <==> c in h.received || c == counter
    {
      SameSlot(c, counter);
      if c < h.next {
        RingTurn(cleared, c);
        RingTurn(before, c);
      }
    }
  }

  /** Out-of-order arrival inside the window. */
  lemma FillIn(before: seq<bv64>, after: seq<bv64>, h: History, counter: nat)
    requires Represents(before, h)
    requires h.next <= counter + N_BITS && counter < h.next
    requires |after| == N_WORDS
    requires forall d: nat :: Slot(after, d) <==> d % N_BITS == counter % N_BITS || Slot(before, d)
    ensures Represents(after, h.Marked(counter))
  {
  }

  /** A jump of a whole window or more forgets every slot. */
  lemma JumpAhead(cleared: seq<bv64>, after: seq<bv64>, h: History, counter: nat)
    requires h.Valid() && h.next + N_BITS <= counter
    requires |cleared| == |after| == N_WORDS
    requires forall d: nat :: !Slot(cleared, d)
    requires forall d: nat :: Slot(after, d) <==> d % N_BITS == counter % N_BITS || Slot(cleared, d)
    ensures Represents(after, h.Marked(counter))
  {
  }

  // ---- The validator ----

  lemma NextWord(i: nat)
    requires i % WORD_SIZE == 0
    ensures (i + WORD_SIZE) / WORD_SIZE * WORD_SIZE == i + WORD_SIZE
  {
  }

  class ReceivingKeyCounterValidator {
    var next: nat
    var receiveCnt: nat
    const bitmap: array<bv64>
    ghost var received: set<nat>

    ghost function View(): History
      reads this
    {
      History(next, receiveCnt, received)
    }

    ghost predicate Valid()
      reads this, bitmap
    {
      Represents(bitmap[..], View())
    }

    constructor ()
      ensures Valid() && fresh(bitmap) && View() == History(0, 0, {})
    {
      next, receiveCnt, received := 0, 0, {};
      bitmap := new bv64[N_WORDS](_ => 0);
    }

    method SetBit(idx: nat)
      requires bitmap.Length == N_WORDS
      modifies bitmap
      ensures forall d: nat ::
        Slot(bitmap[..], d) <==> d % N_BITS == idx % N_BITS || old(Slot(bitmap[..], d))
    {
      var bitIdx := idx % N_BITS;
      var word, bit := bitIdx / WORD_SIZE, bitIdx % WORD_SIZE;
      ghost var before := bitmap[..];
      bitmap[word] := WithBit(bitmap[word], bit);
      forall d: nat
        ensures Slot(bitmap[..], d) <==> d % N_BITS == idx % N_BITS || Slot(before, d)
      {
        BitUpdate(before[word], bit, d % N_BITS % WORD_SIZE);
      }
    }

    method ClearBit(idx: nat)
      requires bitmap.Length == N_WORDS
      modifies bitmap
      ensures forall d: nat ::
        Slot(bitmap[..], d) <==> d % N_BITS != idx % N_BITS && old(Slot(bitmap[..], d))
    {
      var bitIdx := idx % N_BITS;
      var word, bit := bitIdx / WORD_SIZE, bitIdx % WORD_SIZE;
      ghost var before := bitmap[..];
      bitmap[word] := WithoutBit(bitmap[word], bit);
      forall d: nat
        ensures Slot(bitmap[..], d) <==> d % N_BITS != idx % N_BITS && Slot(before, d)
      {
        BitUpdate(before[word], bit, d % N_BITS % WORD_SIZE);
      }
    }

    /** Clears the word that contains `idx`. */
    method ClearWord(idx: nat)
      requires bitmap.Length == N_WORDS
      modifies bitmap
      ensures forall d: nat ::
        Slot(bitmap[..], d) <==>
          d % N_BITS / WORD_SIZE != idx % N_BITS / WORD_SIZE && old(Slot(bitmap[..], d))
    {
      var word := idx % N_BITS / WORD_SIZE;
      ghost var before := bitmap[..];
      bitmap[word] := 0;
      forall d: nat
        ensures Slot(bitmap[..], d) <==> d % N_BITS / WORD_SIZE != word && Slot(before, d)
      {
        BitOfZero(d % N_BITS % WORD_SIZE);
      }
    }

    method ClearAll()
      requires bitmap.Length == N_WORDS
      modifies bitmap
      ensures forall d: nat :: !Slot(bitmap[..], d)
    {
      for k := 0 to N_WORDS
        invariant forall j :: 0 <= j < k ==> bitmap[j] == 0
      {
        bitmap[k] := 0;
      }
      forall d: nat
        ensures !Slot(bitmap[..], d)
      {
        BitOfZero(d % N_BITS % WORD_SIZE);
      }
    }

    method CheckBit(idx: nat) returns (set_: bool)
      requires bitmap.Length == N_WORDS
      ensures set_ == Slot(bitmap[..], idx)
    {
      var bitIdx := idx % N_BITS;
      set_ := Bit(bitmap[bitIdx / WORD_SIZE], bitIdx % WORD_SIZE);
    }

    /** The check made before decryption: the answer the history gives, and why. */
    method WillAccept(counter: nat) returns (r: CounterResult)
      requires Valid()
      requires counter + N_BITS < U64_LIMIT
      ensures r == Accepted <==> View().Fresh(counter)
      ensures r == InvalidCounter <==> counter + N_BITS < next
      ensures r == DuplicateCounter <==> counter + N_BITS >= next && counter in received
    {
      if counter >= next {
        return Accepted;
      }
      if counter + N_BITS < next {
        return InvalidCounter;
      }
      var seen := CheckBit(counter);
      r := if seen then DuplicateCounter else Accepted;
    }

    /** Clears the slots of `[next, counter)`: bit by bit, then by words, then bit by bit again. */
    method ClearSkipped(counter: nat)
      requires bitmap.Length == N_WORDS
      requires next <= counter < next + N_BITS
      modifies bitmap
      ensures ClearedUpTo(old(bitmap[..]), bitmap[..], next, counter)
    {
      ghost var before := bitmap[..];
      var i := next;
      while i % WORD_SIZE != 0 && i < counter
        invariant next <= i <= counter
        invariant ClearedUpTo(before, bitmap[..], next, i)
        decreases counter - i
      {
        ghost var mid := bitmap[..];
        ClearBit(i);
        ClearOneMore(before, mid, bitmap[..], next, i);
        i := i + 1;
      }
      while i + WORD_SIZE < counter
        invariant next <= i <= counter
        invariant i % WORD_SIZE == 0 || i == counter
        invariant ClearedUpTo(before, bitmap[..], next, i)
      {
        ghost var mid := bitmap[..];
        ClearWord(i);
        ClearWordMore(before, mid, bitmap[..], next, i);
        NextWord(i);
        i := (i + WORD_SIZE) / WORD_SIZE * WORD_SIZE;
      }
      while i < counter
        invariant next <= i <= counter
        invariant ClearedUpTo(before, bitmap[..], next, i)
      {
        ghost var mid := bitmap[..];
        ClearBit(i);
        ClearOneMore(before, mid, bitmap[..], next, i);
        i := i + 1;
      }
    }

    /**
     Marks a decrypted packet's counter: it succeeds exactly for a counter
     never received and at most 1024 behind `next`, and a refusal changes nothing.
     */
    method MarkDidReceive(counter: nat) returns (r: CounterResult)
      requires Valid()
      requires counter + N_BITS < U64_LIMIT
      modifies this`next, this`received, bitmap
      ensures Valid()
      ensures r == if old(View()).Fresh(counter) then Accepted else InvalidCounter
      ensures View() == if r == Accepted then old(View()).Marked(counter) else old(View())
    {
      ghost var h := View();
      ghost var before := bitmap[..];
      if counter + N_BITS < next {
        return InvalidCounter;
      }
      if counter == next {
        SetBit(counter);
        SkipAhead(before, before, bitmap[..], h, counter);
        next := next + 1;
        received := received + {counter};
        return Accepted;
      }
      if counter < next {
        var seen := CheckBit(counter);
        if seen {
          return InvalidCounter;
        }
        SetBit(counter);
        FillIn(before, bitmap[..], h, counter);
        received := received + {counter};
        return Accepted;
      }
      if counter - next >= N_BITS {
        ClearAll();
        ghost var cleared := bitmap[..];
        SetBit(counter);
        JumpAhead(cleared, bitmap[..], h, counter);
      } else {
        ClearSkipped(counter);
        ghost var cleared := bitmap[..];
        SetBit(counter);
        SkipAhead(before, cleared, bitmap[..], h, counter);
      }
      next := counter + 1;
      received := received + {counter};
      r := Accepted;
    }

    /** Marks the counter and counts it, as one step under the session's mutex. */
    method CounterMark(counter: nat) returns (r: CounterResult)
      requires Valid()
      requires counter + N_BITS < U64_LIMIT
      modifies this, bitmap
      ensures Valid()
      ensures r == if old(View()).Fresh(counter) then Accepted else InvalidCounter
      ensures View() == Mark(old(View()), counter).0
    {
      r := MarkDidReceive(counter);
      if r == Accepted {
        receiveCnt := receiveCnt + 1;
      }
    }
  }

  /** The step `CounterMark` takes on the history, and whether it accepted. */
  function Mark(h: History, counter: nat): (History, bool) {
    if h.Fresh(counter)
    then (h.Marked(counter).(receiveCnt := h.receiveCnt + 1), true)
    else (h, false)
  }
}
