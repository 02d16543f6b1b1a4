/**
 The device lock: a read/write lock whose readers may upgrade cooperatively.
 The upgrade marks its intention in a flag guarded by a mutex and a condition
 variable, and gives up its read lock twice on the way. The lock is modelled
 as the steps of any number of threads; a step is one operation on the mutex,
 the condition variable, the inner lock, or the guarded value. Either closure
 of an upgrade may panic: unwinding gives back the inner lock and drops the
 guard, but nothing clears the flag.
 */
module UpgradeLock {

  /** Where a thread stands. `saw` is the value its prep function was shown. */
  datatype Pc =
    | Outside                                          // holds nothing
    // read()
    | ReadLocking | ReadChecking | ReadAsleep | ReadAcquiring | ReadAcquired
    | Reading                                          // holds a read guard
    // try_writeable(): marking the intention
    | UpLocking | UpLocked | UpChecking | UpAsleep | UpRelocking
    | UpMarked | UpPreparing | UpPrepared(saw: nat)
    // try_writeable(): writing, then clearing the mark
    | UpWriteWaiting(saw: nat) | UpWriting(saw: nat) | UpWritten | UpRereading
    | UpClearLocking | UpClearing | UpNotifying
    // a closure panicked: dropping the write lock, taking the read lock back, dropping the guard
    | UnwindWriting | UnwindRereading | UnwindReading

  /** `panicked` records whether a closure has panicked; the code keeps no such record. */
  datatype State = State(pcs: seq<Pc>, wantsWrite: bool, value: nat, panicked: bool)

  predicate HoldsMutex(p: Pc) {
    p.ReadChecking? || p.ReadAcquiring? || p.ReadAcquired?
    || p.UpLocked? || p.UpChecking? || p.UpClearing? || p.UpNotifying?
  }

  predicate HoldsRead(p: Pc) {
    p.ReadAcquired? || p.Reading? || p.UpLocking? || p.UpLocked?
    || p.UpPreparing? || p.UpPrepared? || p.UpClearLocking? || p.UpClearing? || p.UpNotifying?
    || p.UnwindReading?
  }

  predicate HoldsWrite(p: Pc) {
    p.UpWriting? || p.UpWritten? || p.UnwindWriting?
  }

  /** Between setting the flag and clearing it. */
  predicate Marked(p: Pc) {
    p.UpMarked? || p.UpPreparing? || p.UpPrepared? || p.UpWriteWaiting? || p.UpWriting?
    || p.UpWritten? || p.UpRereading? || p.UpClearLocking? || p.UpClearing?
  }

  /** Unwinding out of an upgrade whose closure panicked. */
  predicate Unwinding(p: Pc) {
    p.UnwindWriting? || p.UnwindRereading? || p.UnwindReading?
  }

  /** The thread whose upgrade it is, returning or unwinding. */
  predicate Upgrading(p: Pc) {
    Marked(p) || Unwinding(p)
  }

  predicate WantsMutex(p: Pc) {
    p.ReadLocking? || p.UpLocking? || p.UpRelocking? || p.UpClearLocking?
  }

  predicate WantsRead(p: Pc) {
    p.ReadAcquiring? || p.UpMarked? || p.UpRereading? || p.UnwindRereading?
  }

  predicate Asleep(p: Pc) {
    p.ReadAsleep? || p.UpAsleep?
  }

  /** Inside a call to `read` or `try_writeable`. */
  predicate Busy(p: Pc) {
    !p.Outside? && !p.Reading?
  }

  predicate MutexFree(s: State) { forall i :: 0 <= i < |s.pcs| ==> !HoldsMutex(s.pcs[i]) }

  predicate NoWriter(s: State) { forall i :: 0 <= i < |s.pcs| ==> !HoldsWrite(s.pcs[i]) }

  predicate NoReader(s: State) { forall i :: 0 <= i < |s.pcs| ==> !HoldsRead(s.pcs[i]) }

  /** Whether a thread can take its next step; a sleeping thread waits to be notified. */
  predicate Enabled(s: State, t: nat) {
    && t < |s.pcs|
    && var p := s.pcs[t];
       && !Asleep(p)
       && (WantsMutex(p) ==> MutexFree(s))
       && (WantsRead(p) ==> NoWriter(s))
       && (p.UpWriteWaiting? ==> NoWriter(s) && NoReader(s))
  }

  function Woken(p: Pc): Pc {
    if p.ReadAsleep? then ReadLocking else if p.UpAsleep? then UpRelocking else p
  }

  function WakeAll(pcs: seq<Pc>): (r: seq<Pc>)
    ensures |r| == |pcs|
    ensures forall i :: 0 <= i < |pcs| ==> r[i] == Woken(pcs[i])
  {
    seq(|pcs|, i requires 0 <= i < |pcs| => Woken(pcs[i]))
  }

  /** What a step leaves open: what a thread holding a guard does next, and how a closure ends. */
  datatype Choice = Choice(thread: nat, upgrade: bool, written: nat, panics: bool)

  /** Where a thread at `p` goes, given the flag and the guarded value it finds. */
  function Goes(p: Pc, flag: bool, value: nat, c: Choice): Pc {
    match p
    case Outside => ReadLocking
    case ReadLocking => ReadChecking
    case ReadChecking => if flag then ReadAsleep else ReadAcquiring
    case ReadAsleep => ReadAsleep
    case ReadAcquiring => ReadAcquired
    case ReadAcquired => Reading
    case Reading => if c.upgrade then UpLocking else Outside
    case UpLocking => UpLocked
    case UpLocked => UpChecking
    case UpChecking => if flag then UpAsleep else UpMarked
    case UpAsleep => UpAsleep
    case UpRelocking => UpChecking
    case UpMarked => UpPreparing
    case UpPreparing => if c.panics then UnwindReading else UpPrepared(value)
    case UpPrepared(saw) => UpWriteWaiting(saw)
    case UpWriteWaiting(saw) => UpWriting(saw)
    case UpWriting(_) => if c.panics then UnwindWriting else UpWritten
    case UpWritten => UpRereading
    case UpRereading => UpClearLocking
    case UpClearLocking => UpClearing
    case UpClearing => UpNotifying
    case UpNotifying => Reading
    case UnwindWriting => UnwindRereading
    case UnwindRereading => UnwindReading
    case UnwindReading => Outside
  }

  /**
   A step: the thread goes on, and notifying wakes the sleepers. Checking
   sets the flag, clearing clears it, and the mutating closure changes the
   value, whether it returns or panics.
   */
  function Step(s: State, c: Choice): State
    requires Enabled(s, c.thread)
  {
    var p := s.pcs[c.thread];
    State(
      (if p.UpNotifying? then WakeAll(s.pcs) else s.pcs)[c.thread := Goes(p, s.wantsWrite, s.value, c)],
      if p.UpChecking? then true else if p.UpClearing? then false else s.wantsWrite,
      if p.UpWriting? then c.written else s.value,
      s.panicked || ((p.UpPreparing? || p.UpWriting?) && c.panics))
  }

  ghost predicate Initial(s: State) {
    !s.wantsWrite && !s.panicked && forall i :: 0 <= i < |s.pcs| ==> s.pcs[i] == Outside
  }

  /** An interleaving of threads, from any state. */
  ghost predicate IsPath(states: seq<State>, choices: seq<Choice>) {
    && |states| == |choices| + 1
    && forall i :: 0 <= i < |choices| ==>
         Enabled(states[i], choices[i].thread) && states[i + 1] == Step(states[i], choices[i])
  }

  /** An interleaving of threads, from a fresh lock. */
  ghost predicate IsRun(states: seq<State>, choices: seq<Choice>) {
    IsPath(states, choices) && Initial(states[0])
  }

  // ---- What every step keeps ----

  ghost predicate OneMutexHolder(s: State) {
    forall t, u :: 0 <= t < u < |s.pcs| ==> !(HoldsMutex(s.pcs[t]) && HoldsMutex(s.pcs[u]))
  }

  ghost predicate OneUpgrade(s: State) {
    forall t, u :: 0 <= t < u < |s.pcs| ==> !(Upgrading(s.pcs[t]) && Upgrading(s.pcs[u]))
  }

  ghost predicate WriterExcludes(s: State) {
    forall t, u :: 0 <= t < |s.pcs| && 0 <= u < |s.pcs| && t != u && HoldsWrite(s.pcs[t])
      ==> !HoldsRead(s.pcs[u]) && !HoldsWrite(s.pcs[u])
  }

  /** The flag is set by whoever is marked, or was left behind by a panic; then nobody is marked any more. */
  ghost predicate FlagTracksMark(s: State) {
    && (s.wantsWrite <==> s.panicked || exists t :: 0 <= t < |s.pcs| && Marked(s.pcs[t]))
    && forall t :: 0 <= t < |s.pcs| ==> !(s.panicked && Marked(s.pcs[t])) && (Unwinding(s.pcs[t]) ==> s.panicked)
  }

  /** No lost wake-up: somebody will still notify a sleeping thread. */
  ghost predicate SleepersWillWake(s: State) {
    (exists t :: 0 <= t < |s.pcs| && Asleep(s.pcs[t]))
      ==> s.wantsWrite || exists u :: 0 <= u < |s.pcs| && s.pcs[u].UpNotifying?
  }

  ghost predicate AcquiringMeansUnmarked(s: State) {
    forall t :: 0 <= t < |s.pcs| && (s.pcs[t].ReadAcquiring? || s.pcs[t].ReadAcquired?) ==> !s.wantsWrite
  }

  ghost predicate SawCurrentValue(s: State) {
    forall t :: 0 <= t < |s.pcs| && (s.pcs[t].UpPrepared? || s.pcs[t].UpWriteWaiting? || s.pcs[t].UpWriting?)
      ==> s.pcs[t].saw == s.value
  }

  ghost predicate Invariant(s: State) {
    && OneMutexHolder(s)
    && OneUpgrade(s)
    && WriterExcludes(s)
    && FlagTracksMark(s)
    && SleepersWillWake(s)
    && AcquiringMeansUnmarked(s)
    && SawCurrentValue(s)
  }

  lemma StepFrame(s: State, c: Choice, u: nat)
    requires Enabled(s, c.thread) && u < |s.pcs| && u != c.thread
    ensures |Step(s, c).pcs| == |s.pcs|
    ensures Step(s, c).pcs[u] == if s.pcs[c.thread].UpNotifying? then Woken(s.pcs[u]) else s.pcs[u]
  {
  }

  lemma KeepsOneMutexHolder(s: State, c: Choice)
    requires OneMutexHolder(s) && Enabled(s, c.thread)
    ensures OneMutexHolder(Step(s, c))
  {
    var r := Step(s, c);
    forall t, u | 0 <= t < u < |r.pcs|
      ensures !(HoldsMutex(r.pcs[t]) && HoldsMutex(r.pcs[u]))
    {
      if t != c.thread { StepFrame(s, c, t); }
      if u != c.thread { StepFrame(s, c, u); }
    }
  }

  lemma KeepsOneUpgrade(s: State, c: Choice)
    requires OneUpgrade(s) && FlagTracksMark(s) && Enabled(s, c.thread)
    ensures OneUpgrade(Step(s, c))
  {
    var r := Step(s, c);
    forall t, u | 0 <= t < u < |r.pcs|
      ensures !(Upgrading(r.pcs[t]) && Upgrading(r.pcs[u]))
    {
      if t != c.thread { StepFrame(s, c, t); }
      if u != c.thread { StepFrame(s, c, u); }
    }
  }

  lemma KeepsWriterExcludes(s: State, c: Choice)
    requires WriterExcludes(s) && Enabled(s, c.thread)
    ensures WriterExcludes(Step(s, c))
  {
    var r := Step(s, c);
    forall t, u | 0 <= t < |r.pcs| && 0 <= u < |r.pcs| && t != u && HoldsWrite(r.pcs[t])
      ensures !HoldsRead(r.pcs[u]) && !HoldsWrite(r.pcs[u])
    {
      if t != c.thread { StepFrame(s, c, t); }
      if u != c.thread { StepFrame(s, c, u); }
    }
  }

  lemma StepMarks(s: State, c: Choice, u: nat)
    requires FlagTracksMark(s) && OneUpgrade(s) && Enabled(s, c.thread) && u < |s.pcs|
    ensures |Step(s, c).pcs| == |s.pcs|
    ensures Marked(Step(s, c).pcs[u]) ==> Step(s, c).wantsWrite && !Step(s, c).panicked
    ensures Unwinding(Step(s, c).pcs[u]) ==> Step(s, c).panicked
    ensures Marked(s.pcs[u]) && Step(s, c).wantsWrite && !Step(s, c).panicked ==> Marked(Step(s, c).pcs[u])
  {
    if u != c.thread { StepFrame(s, c, u); }
  }

  lemma KeepsFlagTracksMark(s: State, c: Choice)
    requires FlagTracksMark(s) && OneUpgrade(s) && Enabled(s, c.thread)
    ensures FlagTracksMark(Step(s, c))
  {
    var r := Step(s, c);
    forall t | 0 <= t < |r.pcs|
      ensures Marked(r.pcs[t]) ==> r.wantsWrite && !r.panicked
      ensures Unwinding(r.pcs[t]) ==> r.panicked
    {
      StepMarks(s, c, t);
    }
    if r.wantsWrite && !r.panicked {
      if w :| 0 <= w < |s.pcs| && Marked(s.pcs[w]) {
        StepMarks(s, c, w);
      } else {
        assert Marked(r.pcs[c.thread]);
      }
    }
    assert r.panicked ==> r.wantsWrite;
  }

  lemma KeepsSleepersWillWake(s: State, c: Choice)
    requires SleepersWillWake(s) && OneMutexHolder(s) && Enabled(s, c.thread)
    ensures SleepersWillWake(Step(s, c))
  {
    var r := Step(s, c);
    forall t | 0 <= t < |r.pcs| && Asleep(r.pcs[t])
      ensures r.wantsWrite || exists u :: 0 <= u < |r.pcs| && r.pcs[u].UpNotifying?
    {
      if s.pcs[c.thread].UpClearing? {
        assert r.pcs[c.thread].UpNotifying?;
      } else if t != c.thread {
        StepFrame(s, c, t);
        assert Asleep(s.pcs[t]);
        if !s.wantsWrite {
          var u :| 0 <= u < |s.pcs| && s.pcs[u].UpNotifying?;
          if u != c.thread { StepFrame(s, c, u); }
        }
      }
    }
  }

  lemma KeepsAcquiringMeansUnmarked(s: State, c: Choice)
    requires AcquiringMeansUnmarked(s) && OneMutexHolder(s) && Enabled(s, c.thread)
    ensures AcquiringMeansUnmarked(Step(s, c))
  {
  }

  lemma KeepsSawCurrentValue(s: State, c: Choice)
    requires SawCurrentValue(s) && OneUpgrade(s) && Enabled(s, c.thread)
    ensures SawCurrentValue(Step(s, c))
  {
    var r := Step(s, c);
    forall t | 0 <= t < |r.pcs| && (r.pcs[t].UpPrepared? || r.pcs[t].UpWriteWaiting? || r.pcs[t].UpWriting?)
      ensures r.pcs[t].saw == r.value
    {
      if t != c.thread { StepFrame(s, c, t); }
    }
  }

  lemma StepKeepsInvariant(s: State, c: Choice)
    requires Invariant(s) && Enabled(s, c.thread)
    ensures Invariant(Step(s, c))
  {
    KeepsOneMutexHolder(s, c);
    KeepsOneUpgrade(s, c);
    KeepsWriterExcludes(s, c);
    KeepsFlagTracksMark(s, c);
    KeepsSleepersWillWake(s, c);
    KeepsAcquiringMeansUnmarked(s, c);
    KeepsSawCurrentValue(s, c);
  }

  lemma InitialHasInvariant(s: State)
    requires Initial(s)
    ensures Invariant(s)
  {
  }

  lemma {:induction false} PathKeepsInvariant(states: seq<State>, choices: seq<Choice>, n: nat)
    requires IsPath(states, choices) && Invariant(states[0]) && n < |states|
    ensures Invariant(states[n])
  {
    if n > 0 {
      PathKeepsInvariant(states, choices, n - 1);
      StepKeepsInvariant(states[n - 1], choices[n - 1]);
    }
  }

  lemma RunKeepsInvariant(states: seq<State>, choices: seq<Choice>, n: nat)
    requires IsRun(states, choices) && n < |states|
    ensures Invariant(states[n])
  {
    InitialHasInvariant(states[0]);
    PathKeepsInvariant(states, choices, n);
  }

  // ---- Safety over every run ----

  /**
   In every reachable state a thread holding the write lock is the only one
   holding anything, and what the mutating closure is about to change is
   exactly what its prep function saw.
   */
  lemma WriterIsAloneAndCurrent(states: seq<State>, choices: seq<Choice>, n: nat, w: nat)
    requires IsRun(states, choices) && n < |states|
    requires w < |states[n].pcs| && HoldsWrite(states[n].pcs[w])
    ensures forall u :: 0 <= u < |states[n].pcs| && u != w ==>
              !HoldsRead(states[n].pcs[u]) && !HoldsWrite(states[n].pcs[u]) && !Marked(states[n].pcs[u])
    ensures states[n].pcs[w].UpWriting? ==> states[n].pcs[w].saw == states[n].value
  {
    RunKeepsInvariant(states, choices, n);
  }

  /**
   Once a write is marked nobody but the marking thread gains a read guard,
   and nobody else marks or writes, until the flag is cleared.
   */
  lemma NoNewReaderOnceMarked(states: seq<State>, choices: seq<Choice>, n: nat, u: nat)
    requires IsRun(states, choices) && n < |choices| && u < |states[n].pcs|
    requires states[n].wantsWrite && !Marked(states[n].pcs[u]) && !Unwinding(states[n].pcs[u])
    ensures |states[n + 1].pcs| == |states[n].pcs|
    ensures HoldsRead(states[n + 1].pcs[u]) ==> HoldsRead(states[n].pcs[u])
    ensures !Marked(states[n + 1].pcs[u]) && !HoldsWrite(states[n + 1].pcs[u])
  {
    RunKeepsInvariant(states, choices, n);
    if u != choices[n].thread { StepFrame(states[n], choices[n], u); }
  }

  // ---- What is written is what is read ----

  /** The step runs a mutating closure, to its end or to a panic. */
  predicate Writes(s: State, c: Choice) {
    c.thread < |s.pcs| && s.pcs[c.thread].UpWriting?
  }

  /** The last closure to run before state `n` left this behind. */
  ghost predicate LastWrite(states: seq<State>, choices: seq<Choice>, n: nat, k: nat) {
    && k < n < |states| && |states| == |choices| + 1
    && Writes(states[k], choices[k])
    && forall j :: k < j < n ==> !Writes(states[j], choices[j])
  }

  /** A write stays: until another closure runs, the value is what the last one left behind. */
  lemma {:induction false} WriteIsSeen(states: seq<State>, choices: seq<Choice>, n: nat, k: nat)
    requires IsRun(states, choices) && LastWrite(states, choices, n, k)
    ensures states[n].value == choices[k].written
    decreases n
  {
    if n > k + 1 {
      WriteIsSeen(states, choices, n - 1, k);
    }
  }

  /** And before any closure has run it is the initial one. */
  lemma {:induction false} ValueUntilWritten(states: seq<State>, choices: seq<Choice>, n: nat)
    requires IsRun(states, choices) && n < |states|
    requires forall j :: 0 <= j < n ==> !Writes(states[j], choices[j])
    ensures states[n].value == states[0].value
  {
    if n > 0 {
      ValueUntilWritten(states, choices, n - 1);
    }
  }

  /** A guard shows one value: as long as a thread holds a read guard no closure runs, and the value stays. */
  lemma {:induction false} GuardShowsOneValue(states: seq<State>, choices: seq<Choice>, m: nat, n: nat, t: nat)
    requires IsRun(states, choices) && m <= n < |states| && t < |states[m].pcs|
    requires forall k :: m <= k <= n ==> |states[k].pcs| == |states[m].pcs| && HoldsRead(states[k].pcs[t])
    ensures states[n].value == states[m].value
    ensures forall k :: m <= k < n ==> !Writes(states[k], choices[k])
    decreases n
  {
    if n > m {
      GuardShowsOneValue(states, choices, m, n - 1, t);
      RunKeepsInvariant(states, choices, n - 1);
    }
  }

  /** Past its closure, on the way back to its read guard. */
  predicate Wrote(p: Pc) { p.UpWritten? || p.UpRereading? || p.UpClearLocking? || p.UpClearing? }

  /** An upgrade comes back to what it wrote: nobody writes between its closure and the end of its mark. */
  lemma {:induction false} UpgradeKeepsItsWrite(states: seq<State>, choices: seq<Choice>, k: nat, n: nat, t: nat)
    requires IsRun(states, choices) && k < n < |states| && t == choices[k].thread
    requires Writes(states[k], choices[k]) && !choices[k].panics
    requires forall j :: k < j <= n ==> |states[j].pcs| == |states[k].pcs| && Marked(states[j].pcs[t])
    ensures states[n].value == choices[k].written && Wrote(states[n].pcs[t])
    decreases n
  {
    RunKeepsInvariant(states, choices, n - 1);
    if n > k + 1 {
      UpgradeKeepsItsWrite(states, choices, k, n - 1, t);
      if t != choices[n - 1].thread { StepFrame(states[n - 1], choices[n - 1], t); }
    }
  }

  // ---- Progress ----

  /**
   A step no scheduling policy of the inner lock can refuse: a waiting writer
   may hold up new read acquisitions, so those need the writer gone as well.
   */
  predicate MustProceed(s: State, t: nat) {
    && Enabled(s, t)
    && (WantsRead(s.pcs[t]) ==> forall u :: 0 <= u < |s.pcs| && u != t ==> !s.pcs[u].UpWriteWaiting?)
  }

  lemma MarkedCanMove(s: State, w: nat)
    requires Invariant(s) && MutexFree(s)
    requires w < |s.pcs| && Marked(s.pcs[w])
    ensures MustProceed(s, w)
         || exists u :: 0 <= u < |s.pcs| && (s.pcs[u].Reading? || (Busy(s.pcs[u]) && MustProceed(s, u)))
  {
  }

  lemma MutexHolderCanMove(s: State, m: nat)
    requires Invariant(s) && m < |s.pcs| && HoldsMutex(s.pcs[m])
    ensures MustProceed(s, m)
  {
  }

  lemma SomebodyCanMove(s: State, b: nat)
    requires Invariant(s) && b < |s.pcs| && Busy(s.pcs[b])
    requires s.panicked ==> !Asleep(s.pcs[b])
    ensures exists t :: 0 <= t < |s.pcs| && ((Busy(s.pcs[t]) && MustProceed(s, t)) || s.pcs[t].Reading?)
  {
    if !MutexFree(s) {
      var m :| 0 <= m < |s.pcs| && HoldsMutex(s.pcs[m]);
      MutexHolderCanMove(s, m);
    } else if Asleep(s.pcs[b]) {
      assert s.wantsWrite;
      var w :| 0 <= w < |s.pcs| && Marked(s.pcs[w]);
      MarkedCanMove(s, w);
    } else if Marked(s.pcs[b]) {
      MarkedCanMove(s, b);
    } else {
      assert MustProceed(s, b);
    }
  }

  /** Some call is in progress, no plain reader has yet to yield, and no thread inside a call can move. */
  ghost predicate Deadlocked(s: State) {
    && (exists b :: 0 <= b < |s.pcs| && Busy(s.pcs[b]))
    && forall t :: 0 <= t < |s.pcs| ==> !s.pcs[t].Reading? && !(Busy(s.pcs[t]) && MustProceed(s, t))
  }

  /**
   A reachable state is deadlocked exactly when a closure has panicked, some
   thread sleeps, and every other one is outside. In particular no state is
   deadlocked as long as no closure has panicked.
   */
  lemma NoDeadlock(states: seq<State>, choices: seq<Choice>, n: nat)
    requires IsRun(states, choices) && n < |states|
    ensures Deadlocked(states[n]) <==>
              && states[n].panicked
              && (exists b :: 0 <= b < |states[n].pcs| && Asleep(states[n].pcs[b]))
              && forall t :: 0 <= t < |states[n].pcs| ==> states[n].pcs[t].Outside? || Asleep(states[n].pcs[t])
  {
    RunKeepsInvariant(states, choices, n);
    var s := states[n];
    if Deadlocked(s) {
      forall t | 0 <= t < |s.pcs| && Busy(s.pcs[t])
        ensures s.panicked && Asleep(s.pcs[t])
      {
        if !s.panicked || !Asleep(s.pcs[t]) { SomebodyCanMove(s, t); }
      }
    }
  }

  // ---- What a panic does ----

  /** Inside `read` before it has the lock, or inside `try_writeable` before it is marked. */
  predicate Waiting(p: Pc) {
    p.ReadLocking? || p.ReadChecking? || p.ReadAsleep?
    || p.UpLocking? || p.UpLocked? || p.UpChecking? || p.UpAsleep? || p.UpRelocking?
  }

  lemma PanicStep(s: State, c: Choice, u: nat)
    requires Invariant(s) && s.panicked && Enabled(s, c.thread) && u < |s.pcs|
    ensures Step(s, c).panicked && |Step(s, c).pcs| == |s.pcs|
    ensures Waiting(s.pcs[u]) ==> Waiting(Step(s, c).pcs[u])
    ensures s.pcs[u].Outside? ==> Step(s, c).pcs[u].Outside? || Waiting(Step(s, c).pcs[u])
  {
    if u != c.thread { StepFrame(s, c, u); }
  }

  /**
   After a panic nobody enters: in every continuation of the run a call that
   was waiting for the lock is waiting still, and a thread that was outside
   is outside or waiting.
   */
  lemma {:induction false} PanicShutsTheLock(states: seq<State>, choices: seq<Choice>, k: nat, n: nat, u: nat)
    requires IsPath(states, choices) && Invariant(states[0])
    requires k <= n < |states| && states[k].panicked && u < |states[k].pcs|
    ensures Invariant(states[k]) && Invariant(states[n])
    ensures states[n].panicked && |states[n].pcs| == |states[k].pcs|
    ensures Waiting(states[k].pcs[u]) ==> Waiting(states[n].pcs[u])
    ensures states[k].pcs[u].Outside? ==> states[n].pcs[u].Outside? || Waiting(states[n].pcs[u])
    decreases n
  {
    if n == k {
      PathKeepsInvariant(states, choices, n);
    } else {
      PanicShutsTheLock(states, choices, k, n - 1, u);
      PanicStep(states[n - 1], choices[n - 1], u);
      StepKeepsInvariant(states[n - 1], choices[n - 1]);
    }
  }

  // ---- Every call completes ----

  /** Whether a thread still has a write to announce the end of. */
  function Pending(p: Pc): nat {
    if p.UpLocking? || p.UpLocked? || p.UpChecking? || p.UpAsleep? || p.UpRelocking? || Marked(p) || p.UpNotifying?
    then 1 else 0
  }

  /** Steps a thread can take on its own before it must be woken or start a new call. */
  function Rank(p: Pc): nat {
    match p
    case Outside => 0
    case Reading => 1
    case ReadAcquired => 2 case ReadAcquiring => 3 case ReadAsleep => 3 case ReadChecking => 4 case ReadLocking => 5
    case UpNotifying => 2 case UpClearing => 3 case UpClearLocking => 4 case UpRereading => 5 case UpWritten => 6
    case UpWriting(_) => 7 case UpWriteWaiting(_) => 8 case UpPrepared(_) => 9 case UpPreparing => 10
    case UpMarked => 11
    case UnwindReading => 2 case UnwindRereading => 3 case UnwindWriting => 4
    case UpAsleep => 11 case UpChecking => 12 case UpRelocking => 13 case UpLocked => 13 case UpLocking => 14
  }

  function Total(f: Pc -> nat, pcs: seq<Pc>): nat {
    if pcs == [] then 0 else f(pcs[0]) + Total(f, pcs[1..])
  }

  lemma {:induction false} TotalUpdate(f: Pc -> nat, pcs: seq<Pc>, t: nat, p: Pc)
    requires t < |pcs|
    ensures Total(f, pcs[t := p]) + f(pcs[t]) == Total(f, pcs) + f(p)
  {
    if t == 0 {
      assert pcs[0 := p][1..] == pcs[1..];
    } else {
      assert pcs[t := p][1..] == pcs[1..][t - 1 := p];
      TotalUpdate(f, pcs[1..], t - 1, p);
    }
  }

  lemma {:induction false} TotalWake(pcs: seq<Pc>)
    ensures Total(Pending, WakeAll(pcs)) == Total(Pending, pcs)
  {
    if pcs != [] {
      assert WakeAll(pcs)[1..] == WakeAll(pcs[1..]);
      TotalWake(pcs[1..]);
    }
  }

  /** A step that starts neither a `read` nor a `try_writeable`. */
  predicate Continues(s: State, c: Choice) {
    && Enabled(s, c.thread)
    && !s.pcs[c.thread].Outside?
    && (s.pcs[c.thread].Reading? ==> !c.upgrade)
  }

  lemma OwnStep(s: State, c: Choice)
    requires Continues(s, c) && !s.pcs[c.thread].UpNotifying?
    ensures |Step(s, c).pcs| == |s.pcs|
    ensures var p := Step(s, c).pcs[c.thread];
      && Step(s, c).pcs == s.pcs[c.thread := p]
      && Rank(p) < Rank(s.pcs[c.thread]) && Pending(p) <= Pending(s.pcs[c.thread])
  {
  }

  lemma NotifyProgress(s: State, c: Choice)
    requires Continues(s, c) && s.pcs[c.thread].UpNotifying?
    ensures Total(Pending, Step(s, c).pcs) < Total(Pending, s.pcs)
  {
    TotalWake(s.pcs);
    TotalUpdate(Pending, WakeAll(s.pcs), c.thread, Reading);
  }

  lemma OwnProgress(s: State, c: Choice)
    requires Continues(s, c) && !s.pcs[c.thread].UpNotifying?
    ensures Total(Pending, Step(s, c).pcs) <= Total(Pending, s.pcs)
    ensures Total(Rank, Step(s, c).pcs) < Total(Rank, s.pcs)
  {
    OwnStep(s, c);
    var p := Step(s, c).pcs[c.thread];
    TotalUpdate(Pending, s.pcs, c.thread, p);
    TotalUpdate(Rank, s.pcs, c.thread, p);
  }

  /** Without new calls, pending writes do not grow, and between two of them every step is progress. */
  lemma StepMakesProgress(s: State, c: Choice)
    requires Continues(s, c)
    ensures |Step(s, c).pcs| == |s.pcs|
    ensures var pcs := Step(s, c).pcs;
      || Total(Pending, pcs) < Total(Pending, s.pcs)
      || (Total(Pending, pcs) == Total(Pending, s.pcs) && Total(Rank, pcs) < Total(Rank, s.pcs))
  {
    if s.pcs[c.thread].UpNotifying? {
      NotifyProgress(s, c);
    } else {
      OwnProgress(s, c);
    }
  }

  lemma {:induction false} RankBound(pcs: seq<Pc>)
    ensures Total(Rank, pcs) <= 14 * |pcs|
  {
    if pcs != [] {
      RankBound(pcs[1..]);
    }
  }

  /** One number that every continuing step lowers. */
  function Fuel(s: State): nat {
    Total(Pending, s.pcs) * (14 * |s.pcs| + 1) + Total(Rank, s.pcs)
  }

  lemma Lexicographic(a: nat, b: nat, a': nat, b': nat, k: nat)
    requires (a' < a && b' < k) || (a' == a && b' < b)
    ensures a' * k + b' < a * k + b
  {
    if a' < a {
      assert (a' + 1) * k <= a * k;
    }
  }

  lemma StepBurnsFuel(s: State, c: Choice)
    requires Continues(s, c)
    ensures Fuel(Step(s, c)) < Fuel(s)
  {
    var r := Step(s, c);
    StepMakesProgress(s, c);
    RankBound(r.pcs);
    Lexicographic(
      Total(Pending, s.pcs), Total(Rank, s.pcs), Total(Pending, r.pcs), Total(Rank, r.pcs), 14 * |s.pcs| + 1);
  }

  /** A stretch of a run in which no new call starts. */
  ghost predicate IsQuietStretch(states: seq<State>, choices: seq<Choice>) {
    && |states| == |choices| + 1
    && Invariant(states[0])
    && forall i :: 0 <= i < |choices| ==>
         Continues(states[i], choices[i]) && states[i + 1] == Step(states[i], choices[i])
  }

  lemma {:induction false} QuietStretchBurnsFuel(states: seq<State>, choices: seq<Choice>, n: nat)
    requires IsQuietStretch(states, choices) && n < |states|
    ensures Invariant(states[n]) && n + Fuel(states[n]) <= Fuel(states[0])
  {
    if n > 0 {
      QuietStretchBurnsFuel(states, choices, n - 1);
      StepBurnsFuel(states[n - 1], choices[n - 1]);
      StepKeepsInvariant(states[n - 1], choices[n - 1]);
    }
  }

  /** No thread can take a step without starting a new call. */
  ghost predicate Settled(s: State) {
    forall c: Choice :: !Continues(s, c)
  }

  lemma SettledThread(s: State, t: nat)
    requires Invariant(s) && Settled(s) && t < |s.pcs|
    ensures s.pcs[t].Outside? || (s.panicked && Asleep(s.pcs[t]))
  {
    if s.pcs[t].Reading? {
      assert Continues(s, Choice(t, false, 0, false));
    } else if Busy(s.pcs[t]) && (s.panicked ==> !Asleep(s.pcs[t])) {
      SomebodyCanMove(s, t);
      var u :| 0 <= u < |s.pcs| && ((Busy(s.pcs[u]) && MustProceed(s, u)) || s.pcs[u].Reading?);
      assert Continues(s, Choice(u, false, 0, false));
    }
  }

  /**
   From a reachable state, if no new call starts, the threads can take at
   most `Fuel` steps under every schedule. When none is left to take and no
   closure has panicked, every call is done and no guard is held.
   */
  lemma CallsComplete(states: seq<State>, choices: seq<Choice>)
    requires IsQuietStretch(states, choices)
    ensures |choices| <= Fuel(states[0])
    ensures var last := states[|choices|];
      Settled(last) && !last.panicked ==> forall t :: 0 <= t < |last.pcs| ==> last.pcs[t] == Outside
  {
    QuietStretchBurnsFuel(states, choices, |choices|);
    var last := states[|choices|];
    if Settled(last) && !last.panicked {
      forall t | 0 <= t < |last.pcs| ensures last.pcs[t] == Outside { SettledThread(last, t); }
    }
  }

  lemma NotStranded(s: State, c: Choice, u: nat)
    requires Invariant(s) && s.panicked && Continues(s, c) && u < |s.pcs| && !Waiting(s.pcs[u])
    ensures |Step(s, c).pcs| == |s.pcs| && !Waiting(Step(s, c).pcs[u])
  {
    if u != c.thread { StepFrame(s, c, u); }
  }

  lemma {:induction false} NeverStranded(states: seq<State>, choices: seq<Choice>, k: nat, n: nat, u: nat)
    requires IsQuietStretch(states, choices) && k <= n < |states|
    requires states[k].panicked && u < |states[k].pcs| && !Waiting(states[k].pcs[u])
    ensures |states[n].pcs| == |states[k].pcs| && !Waiting(states[n].pcs[u])
    decreases n
  {
    if n > k {
      NeverStranded(states, choices, k, n - 1, u);
      PanicShutsTheLock(states, choices, k, n - 1, u);
      NotStranded(states[n - 1], choices[n - 1], u);
    }
  }

  /**
   With a panic, exactly the calls that were still waiting for the lock when
   it happened never complete: whatever the schedule, once nothing is left to
   do a thread is outside if and only if it was not waiting at the panic.
   */
  lemma PanicStrandsTheWaiting(states: seq<State>, choices: seq<Choice>, k: nat, t: nat)
    requires IsQuietStretch(states, choices) && k < |states| && states[k].panicked && t < |states[k].pcs|
    requires Settled(states[|choices|])
    ensures |states[|choices|].pcs| == |states[k].pcs|
    ensures states[|choices|].pcs[t] == Outside <==> !Waiting(states[k].pcs[t])
  {
    PanicShutsTheLock(states, choices, k, |choices|, t);
    SettledThread(states[|choices|], t);
    if !Waiting(states[k].pcs[t]) { NeverStranded(states, choices, k, |choices|, t); }
  }

  /** Some schedule settles every state. */
  lemma {:induction false} Settle(s: State) returns (states: seq<State>, choices: seq<Choice>)
    requires Invariant(s)
    ensures IsQuietStretch(states, choices) && states[0] == s && Settled(states[|choices|])
    decreases Fuel(s)
  {
    if Settled(s) {
      states, choices := [s], [];
    } else {
      var c: Choice :| Continues(s, c);
      StepBurnsFuel(s, c);
      StepKeepsInvariant(s, c);
      var rest, more := Settle(Step(s, c));
      states, choices := [s] + rest, [c] + more;
    }
  }

  /** Thread 0 of a settled lock calls `read` after a panic, and falls asleep. */
  function ReadAfterPanic(s: State): seq<State>
    requires |s.pcs| > 0
  {
    [s, s.(pcs := s.pcs[0 := ReadLocking]), s.(pcs := s.pcs[0 := ReadChecking]), s.(pcs := s.pcs[0 := ReadAsleep])]
  }

  lemma NextReaderSleeps(s: State)
    requires Invariant(s) && Settled(s) && s.panicked && |s.pcs| > 0
    requires forall t :: 0 <= t < |s.pcs| ==> s.pcs[t].Outside?
    ensures var c := Choice(0, false, 0, false);
      IsPath(ReadAfterPanic(s), [c, c, c]) && Deadlocked(ReadAfterPanic(s)[3])
  {
    var c := Choice(0, false, 0, false);
    var path := ReadAfterPanic(s);
    assert path[1].pcs[0 := ReadChecking] == path[2].pcs;
    assert path[2].pcs[0 := ReadAsleep] == path[3].pcs;
    assert Busy(path[3].pcs[0]);
  }

  lemma {:induction false} Continued(states: seq<State>, choices: seq<Choice>, more: seq<State>, rest: seq<Choice>)
    requires IsPath(states, choices) && IsPath(more, rest) && more[0] == states[|choices|]
    ensures IsPath(states + more[1..], choices + rest)
  {
    var path, picks := states + more[1..], choices + rest;
    forall i | 0 <= i < |picks| ensures Enabled(path[i], picks[i].thread) && path[i + 1] == Step(path[i], picks[i]) {
      if i >= |choices| {
        assert path[i] == more[i - |choices|] && path[i + 1] == more[i + 1 - |choices|];
      }
    }
  }

  /** A panic is fatal: from every reachable state that has seen one the lock can run into a deadlock. */
  lemma PanicLeadsToDeadlock(s: State) returns (states: seq<State>, choices: seq<Choice>)
    requires Invariant(s) && s.panicked && |s.pcs| > 0
    ensures IsPath(states, choices) && states[0] == s && Deadlocked(states[|choices|])
  {
    states, choices := Settle(s);
    var last := states[|choices|];
    PanicShutsTheLock(states, choices, 0, |choices|, 0);
    forall t | 0 <= t < |last.pcs| ensures last.pcs[t].Outside? || Asleep(last.pcs[t]) { SettledThread(last, t); }
    if b :| 0 <= b < |last.pcs| && Asleep(last.pcs[b]) {
      assert Busy(last.pcs[b]);
    } else {
      NextReaderSleeps(last);
      var c := Choice(0, false, 0, false);
      Continued(states, choices, ReadAfterPanic(last), [c, c, c]);
      states, choices := states + ReadAfterPanic(last)[1..], choices + [c, c, c];
    }
  }
}
