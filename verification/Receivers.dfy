/**
 Any number of threads receiving data packets on one session. Each packet goes
 through a quick check of its counter, decryption outside the lock, and a
 second check that marks the counter; the three parts of different packets
 interleave freely.
 */
module Receivers {
  import opened ReplayWindow

  datatype Stage = Idle | Checked(counter: nat) | Opened(counter: nat)

  datatype State = State(
    history: History,
    stage: map<nat, Stage>,
    delivered: seq<nat>)

  datatype Step =
    | QuickCheck(thread: nat, counter: nat)
    | Decrypt(thread: nat, authentic: bool)
    | FinalMark(thread: nat)

  /** Counters are those the validator takes, 1024 short of the end of their 64 bits. */
  predicate Enabled(s: State, step: Step) {
    && step.thread in s.stage
    && match step {
      case QuickCheck(t, counter) => s.stage[t].Idle? && counter + N_BITS < U64_LIMIT
      case Decrypt(t, _) => s.stage[t].Checked?
      case FinalMark(t) => s.stage[t].Opened?
    }
  }

  function Apply(s: State, step: Step): State
    requires Enabled(s, step)
  {
    match step
    case QuickCheck(t, c) =>
      s.(stage := s.stage[t := if s.history.Fresh(c) then Checked(c) else Idle])
    case Decrypt(t, authentic) =>
      s.(stage := s.stage[t := if authentic then Opened(s.stage[t].counter) else Idle])
    case FinalMark(t) =>
      var c := s.stage[t].counter;
      var (h, ok) := Mark(s.history, c);
      State(h, s.stage[t := Idle], if ok then s.delivered + [c] else s.delivered)
  }

  ghost predicate Initial(s: State) {
    && s.history == History(0, 0, {})
    && s.delivered == []
    && forall t <- s.stage :: s.stage[t] == Idle
  }

  /** `states` is a run: it starts empty and each state follows by some enabled step. */
  ghost predicate IsRun(states: seq<State>, steps: seq<Step>) {
    && |states| == |steps| + 1
    && Initial(states[0])
    && forall i :: 0 <= i < |steps| ==> Enabled(states[i], steps[i]) && states[i + 1] == Apply(states[i], steps[i])
  }

  ghost predicate NoRepeats(s: seq<nat>) {
    forall i, j :: 0 <= i < j < |s| ==> s[i] != s[j]
  }

  ghost function Elements(s: seq<nat>): set<nat> {
    set c | c in s
  }

  ghost predicate Invariant(s: State) {
    && s.history.Valid()
    && NoRepeats(s.delivered)
    && s.history.received == Elements(s.delivered)
    && s.history.receiveCnt == |s.delivered|
  }

  lemma StepKeepsInvariant(s: State, step: Step)
    requires Invariant(s) && Enabled(s, step)
    ensures Invariant(Apply(s, step))
  {
  }

  lemma {:induction false} RunKeepsInvariant(states: seq<State>, steps: seq<Step>, n: nat)
    requires IsRun(states, steps) && n < |states|
    ensures Invariant(states[n])
  {
    if n > 0 {
      RunKeepsInvariant(states, steps, n - 1);
      StepKeepsInvariant(states[n - 1], steps[n - 1]);
    } else {
      assert Elements(states[0].delivered) == {};
    }
  }

  lemma {:induction false} DistinctBelow(s: set<nat>, bound: nat)
    requires forall c <- s :: c < bound
    ensures |s| <= bound
  {
    if bound == 0 {
      assert s == {};
    } else {
      DistinctBelow(s - {bound - 1}, bound - 1);
      assert bound - 1 in s ==> s == (s - {bound - 1}) + {bound - 1};
      assert bound - 1 !in s ==> s == s - {bound - 1};
    }
  }

  lemma {:induction false} SizeOfDistinct(s: seq<nat>)
    requires NoRepeats(s)
    ensures |Elements(s)| == |s|
  {
    if s == [] {
      assert Elements(s) == {};
    } else {
      var front, last := s[..|s| - 1], s[|s| - 1];
      SizeOfDistinct(front);
      assert s == front + [last];
      assert Elements(s) == Elements(front) + {last};
      assert last !in Elements(front);
    }
  }

  /**
   Whatever the interleaving: no counter is delivered twice, `receive_cnt`
   counts the distinct delivered counters, and it never exceeds `next`.
   */
  lemma DeliveredOnce(states: seq<State>, steps: seq<Step>, n: nat)
    requires IsRun(states, steps) && n < |states|
    ensures NoRepeats(states[n].delivered)
    ensures states[n].history.receiveCnt == |states[n].delivered| == |Elements(states[n].delivered)|
    ensures states[n].history.receiveCnt <= states[n].history.next
  {
    RunKeepsInvariant(states, steps, n);
    SizeOfDistinct(states[n].delivered);
    DistinctBelow(states[n].history.received, states[n].history.next);
  }

  lemma StepKeepsDelivered(s: State, step: Step)
    requires Invariant(s) && Enabled(s, step)
    ensures s.delivered <= Apply(s, step).delivered
    ensures s.history.next <= Apply(s, step).history.next
  {
  }

  lemma {:induction false} Monotone(states: seq<State>, steps: seq<Step>, m: nat, n: nat)
    requires IsRun(states, steps) && m <= n < |states|
    ensures states[m].delivered <= states[n].delivered
    ensures states[m].history.next <= states[n].history.next
    decreases n - m
  {
    if m < n {
      RunKeepsInvariant(states, steps, n - 1);
      StepKeepsDelivered(states[n - 1], steps[n - 1]);
      Monotone(states, steps, m, n - 1);
    }
  }

  /**
   A packet that decrypted is dropped only for a reason: its counter was
   delivered by then, or it had fallen more than 1024 behind. Otherwise the
   step delivers it, and from then on no later state delivers it again.
   */
  lemma OpenedIsDeliveredUnlessStale(states: seq<State>, steps: seq<Step>, n: nat, later: nat)
    requires IsRun(states, steps) && n < |steps| && n + 1 <= later < |states|
    requires steps[n].FinalMark?
    ensures var c := states[n].stage[steps[n].thread].counter;
      if c in states[n].delivered || c + N_BITS < states[n].history.next
      then states[n + 1].delivered == states[n].delivered
      else states[n + 1].delivered == states[n].delivered + [c]
           && states[n + 1].delivered <= states[later].delivered && NoRepeats(states[later].delivered)
  {
    RunKeepsInvariant(states, steps, n);
    Monotone(states, steps, n + 1, later);
    DeliveredOnce(states, steps, later);
  }

  // ---- Only what decrypted is delivered ----

  /** Steps `q` and `d` are the thread's quick check of `c` and its successful decryption, and its only ones since. */
  ghost predicate OpenedBy(steps: seq<Step>, n: nat, t: nat, c: nat, q: nat, d: nat) {
    && q < d < n <= |steps|
    && steps[q] == QuickCheck(t, c) && steps[d] == Decrypt(t, true)
    && forall k :: q < k < n && k != d ==> steps[k].thread != t
  }

  lemma {:induction false} CheckedOrigin(states: seq<State>, steps: seq<Step>, n: nat, t: nat) returns (q: nat)
    requires IsRun(states, steps) && n < |states| && t in states[n].stage && states[n].stage[t].Checked?
    ensures q < n && steps[q] == QuickCheck(t, states[n].stage[t].counter)
    ensures forall k :: q < k < n ==> steps[k].thread != t
  {
    if steps[n - 1].thread == t {
      q := n - 1;
    } else {
      q := CheckedOrigin(states, steps, n - 1, t);
    }
  }

  lemma {:induction false} OpenedOrigin(states: seq<State>, steps: seq<Step>, n: nat, t: nat) returns (q: nat, d: nat)
    requires IsRun(states, steps) && n < |states| && t in states[n].stage && states[n].stage[t].Opened?
    ensures OpenedBy(steps, n, t, states[n].stage[t].counter, q, d)
  {
    if steps[n - 1].thread == t {
      d := n - 1;
      q := CheckedOrigin(states, steps, n - 1, t);
    } else {
      q, d := OpenedOrigin(states, steps, n - 1, t);
    }
  }

  /**
   Every delivery has its origin: the counter at position `i` was delivered by
   a mark whose thread had checked that very counter and decrypted the packet
   successfully, with nothing of its own in between.
   */
  lemma {:induction false} DeliveredOrigin(states: seq<State>, steps: seq<Step>, n: nat, i: nat)
    returns (t: nat, q: nat, d: nat, f: nat)
    requires IsRun(states, steps) && n < |states| && i < |states[n].delivered|
    ensures f < n && steps[f] == FinalMark(t) && OpenedBy(steps, f, t, states[n].delivered[i], q, d)
    ensures |states[f].delivered| == i
  {
    var before := states[n - 1];
    if i < |before.delivered| {
      StepGrows(before, steps[n - 1]);
      t, q, d, f := DeliveredOrigin(states, steps, n - 1, i);
    } else {
      t, f := steps[n - 1].thread, n - 1;
      q, d := OpenedOrigin(states, steps, n - 1, t);
    }
  }

  lemma StepGrows(s: State, step: Step)
    requires Enabled(s, step)
    ensures Apply(s, step).delivered == s.delivered
         || (step.FinalMark? && Apply(s, step).delivered == s.delivered + [s.stage[step.thread].counter])
  {
  }

  /** Forged packets alone change nothing, however many are tried and by however many threads. */
  lemma {:induction false} ForgeriesChangeNothing(states: seq<State>, steps: seq<Step>, n: nat)
    requires IsRun(states, steps) && n < |states|
    requires forall k :: 0 <= k < n ==> steps[k] != Decrypt(steps[k].thread, true)
    ensures states[n].history == states[0].history && states[n].delivered == []
    ensures forall t <- states[n].stage :: !states[n].stage[t].Opened?
  {
    if n > 0 {
      ForgeriesChangeNothing(states, steps, n - 1);
    }
  }

  /** From any reachable state a genuine packet gets through, exactly if it is neither delivered nor too far behind. */
  lemma GenuineGetsThrough(states: seq<State>, steps: seq<Step>, n: nat, t: nat, c: nat)
    requires IsRun(states, steps) && n < |states| && c + N_BITS < U64_LIMIT
    requires t in states[n].stage && states[n].stage[t].Idle?
    ensures var s := states[n];
      var checked := Apply(s, QuickCheck(t, c));
      && (checked.stage[t] == Checked(c) <==> c !in s.delivered && s.history.next <= c + N_BITS)
      && (checked.stage[t] == Checked(c) ==>
           && Apply(Apply(checked, Decrypt(t, true)), FinalMark(t)).delivered == s.delivered + [c]
           && Apply(checked, Decrypt(t, false)) == s)
      && (checked.stage[t] != Checked(c) ==> checked == s)
  {
    RunKeepsInvariant(states, steps, n);
    var s := states[n];
    assert s.stage[t := Idle] == s.stage;
  }
}
