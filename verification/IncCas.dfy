/**
  The test program that increments one counter with compare-and-swap, as any number of threads
  interleaved in any way. Every access to the counter is a step.
*/
module IncCas {
  import opened Sums

  /** Before the read of the counter, between it and a compare-and-swap, or finished. */
  datatype Pc = Loading | Trying(orig: int, first: bool) | Finished

  datatype Thread = Thread(pc: Pc, count: int, evenCount: int, fails: int)

  /** An access to the counter; a swap reads, and writes if it succeeds. */
  datatype Access = Read(thread: nat) | Swap(thread: nat, done: bool)

  datatype State = State(counter: int, threads: seq<Thread>, log: seq<Access>)

  function Initial(n: nat): State {
    State(0, seq(n, _ => Thread(Loading, 0, 0, 0)), [])
  }

  predicate Enabled(s: State, t: nat) {
    t < |s.threads| && !s.threads[t].pc.Finished?
  }

  /** The next access of thread `t`, with the thread's own bookkeeping up to the access after it. */
  function Next(stop: int, s: State, t: nat): State
    requires Enabled(s, t)
  {
    var Thread(pc, count, even, fails) := s.threads[t];
    match pc
    case Loading =>
      State(s.counter, s.threads[t := Thread(Trying(s.counter, true), count, even, fails)], s.log + [Read(t)])
    case Trying(orig, first) =>
      var failed := if first then fails else fails + 1;
      if s.counter == orig then
        var was := s.counter;
        var next := if was < stop then Loading else Finished;
        var after := Thread(next, count + 1, if was % 2 == 0 then even + 1 else even, failed);
        State(was + 1, s.threads[t := after], s.log + [Swap(t, true)])
      else
        var after := Thread(Trying(s.counter, false), count, even, failed);
        State(s.counter, s.threads[t := after], s.log + [Swap(t, false)])
  }

  predicate ValidRun(stop: int, s: State, run: seq<nat>)
    decreases |run|
  {
    run == [] || (Enabled(s, run[0]) && ValidRun(stop, Next(stop, s, run[0]), run[1..]))
  }

  function Final(stop: int, s: State, run: seq<nat>): State
    requires ValidRun(stop, s, run)
    decreases |run|
  {
    if run == [] then s else Final(stop, Next(stop, s, run[0]), run[1..])
  }

  predicate AllFinished(s: State) {
    forall t :: t in s.threads ==> t.pc.Finished?
  }

  // ----- what is counted -----

  function Bit(b: bool): int {
    if b then 1 else 0
  }

  function Count(t: Thread): int {
    t.count
  }

  function EvenCount(t: Thread): int {
    t.evenCount
  }

  function Done(t: Thread): int {
    Bit(t.pc.Finished?)
  }

  function InTry(t: Thread): int {
    Bit(t.pc.Trying?)
  }

  /** Failures, also the one that the thread will count at the start of its next attempt. */
  function Fails(t: Thread): int {
    t.fails + Bit(t.pc.Trying? && !t.pc.first)
  }

  /** A thread that is going to fail unless it reads again. */
  predicate IsStale(t: Thread, counter: int) {
    t.pc.Trying? && t.pc.orig != counter
  }

  function Stale(counter: int): Thread -> int {
    t => Bit(IsStale(t, counter))
  }

  function ReadsOf(log: seq<Access>): nat {
    if log == [] then 0 else ReadsOf(log[..|log| - 1]) + (if log[|log| - 1].Read? then 1 else 0)
  }

  function SwapsOf(log: seq<Access>, done: bool): nat {
    if log == [] then 0
    else SwapsOf(log[..|log| - 1], done) + (if log[|log| - 1].Swap? && log[|log| - 1].done == done then 1 else 0)
  }

  /** The threads of the successful swaps, in order. */
  function Increments(log: seq<Access>): seq<nat> {
    if log == [] then []
    else
      var a := log[|log| - 1];
      Increments(log[..|log| - 1]) + (if a == Swap(a.thread, true) then [a.thread] else [])
  }

  lemma LogSnoc(log: seq<Access>, a: Access)
    ensures ReadsOf(log + [a]) == ReadsOf(log) + (if a.Read? then 1 else 0)
    ensures forall d :: SwapsOf(log + [a], d) == SwapsOf(log, d) + (if a.Swap? && a.done == d then 1 else 0)
  {
    assert (log + [a])[..|log|] == log;
  }

  ghost predicate Counted(stop: int, s: State) {
    var n := |s.threads|;
    && 0 <= s.counter
    && Sum(s.threads, Count) == s.counter
    && Sum(s.threads, EvenCount) == (s.counter + 1) / 2
    && Sum(s.threads, Done) == (if s.counter <= stop then 0 else s.counter - stop)
    && SwapsOf(s.log, true) == s.counter
    && SwapsOf(s.log, false) == Sum(s.threads, Fails)
    && ReadsOf(s.log) == s.counter + Sum(s.threads, InTry)
  }

  /** What a thread counted is what the accesses to the counter say about it. */
  ghost predicate ThreadCounted(s: State, t: nat)
    requires t < |s.threads|
  {
    s.threads[t].count == CountIn(Increments(s.log), t) && s.threads[t].evenCount == EvenIn(Increments(s.log), t)
  }

  ghost predicate ThreadsCounted(s: State) {
    |Increments(s.log)| == s.counter && forall t :: 0 <= t < |s.threads| ==> ThreadCounted(s, t)
  }

  lemma StepThreadsCounted(stop: int, s: State, t: nat)
    requires ThreadsCounted(s) && Enabled(s, t)
    ensures ThreadsCounted(Next(stop, s, t))
  {
    var s' := Next(stop, s, t);
    assert s'.log[..|s.log|] == s.log;
    assert Increments(s'.log) == if s'.counter == s.counter then Increments(s.log) else Increments(s.log) + [t];
    hide CountIn, EvenIn;
    forall q | 0 <= q < |s'.threads| ensures ThreadCounted(s', q) {
      assert ThreadCounted(s, q);
      InSnoc(Increments(s.log), t, q);
    }
  }

  lemma {:induction false} RunThreadsCounted(stop: int, s: State, run: seq<nat>)
    requires ThreadsCounted(s) && ValidRun(stop, s, run)
    ensures ThreadsCounted(Final(stop, s, run))
    decreases |run|
  {
    if run != [] {
      StepThreadsCounted(stop, s, run[0]);
      RunThreadsCounted(stop, Next(stop, s, run[0]), run[1..]);
    }
  }

  /** Failures so far and failures to come are paid for by the successes. */
  ghost predicate Paid(s: State) {
    Sum(s.threads, Fails) + Sum(s.threads, Stale(s.counter)) <= (|s.threads| - 1) * s.counter
  }

  lemma InitialCounted(stop: int, n: nat)
    requires n > 0 && stop >= 0
    ensures Counted(stop, Initial(n)) && Paid(Initial(n))
  {
    var t := Thread(Loading, 0, 0, 0);
    SumRepeat(n, t, Count);
    SumRepeat(n, t, EvenCount);
    SumRepeat(n, t, Done);
    SumRepeat(n, t, Fails);
    SumRepeat(n, t, InTry);
    SumRepeat(n, t, Stale(0));
  }

  lemma StepCounts(stop: int, s: State, t: nat)
    requires stop >= 0 && Counted(stop, s) && Enabled(s, t)
    ensures Counted(stop, Next(stop, s, t))
  {
    hide Sum, ReadsOf, SwapsOf;
    var s' := Next(stop, s, t);
    var u := s'.threads[t];
    SumUpdate(s.threads, t, u, Count);
    SumUpdate(s.threads, t, u, EvenCount);
    SumUpdate(s.threads, t, u, Done);
    SumUpdate(s.threads, t, u, Fails);
    SumUpdate(s.threads, t, u, InTry);
    LogSnoc(s.log, s'.log[|s.log|]);
  }

  /** A thread that just succeeded is not stale. */
  lemma StaleBound(ts: seq<Thread>, t: nat, counter: int)
    requires t < |ts| && !ts[t].pc.Trying?
    ensures Sum(ts, Stale(counter)) <= |ts| - 1
  {
    var others := ts[..t] + ts[t + 1..];
    OneOut(ts, t, Stale(counter));
    SumBounds(others, Stale(counter), 0, 1);
  }

  lemma StaleIsNonnegative(ts: seq<Thread>, counter: int)
    ensures Sum(ts, Stale(counter)) >= 0
  {
    SumBounds(ts, Stale(counter), 0, 1);
  }

  lemma OneMore(n: int, c: int)
    ensures (n - 1) * (c + 1) == (n - 1) * c + (n - 1)
  {
  }

  /** A success makes at most all other threads stale. */
  lemma SuccessPays(s: State, t: nat, u: Thread)
    requires t < |s.threads| && !u.pc.Trying? && Fails(u) == Fails(s.threads[t]) && Paid(s)
    ensures Paid(State(s.counter + 1, s.threads[t := u], s.log))
  {
    SumUpdate(s.threads, t, u, Fails);
    StaleIsNonnegative(s.threads, s.counter);
    StaleBound(s.threads[t := u], t, s.counter + 1);
    OneMore(|s.threads|, s.counter);
    hide Sum;
  }

  lemma {:induction false} OneOut(ts: seq<Thread>, t: nat, f: Thread -> int)
    requires t < |ts|
    ensures Sum(ts, f) == f(ts[t]) + Sum(ts[..t] + ts[t + 1..], f)
  {
    var others := ts[..t] + ts[t + 1..];
    if t == 0 {
      assert others == ts[1..];
    } else {
      OneOut(ts[1..], t - 1, f);
      assert others[1..] == ts[1..][..t - 1] + ts[1..][t..];
      assert others[0] == ts[0];
    }
  }

  lemma StepPays(stop: int, s: State, t: nat)
    requires Paid(s) && Enabled(s, t)
    ensures Paid(Next(stop, s, t))
  {
    var s' := Next(stop, s, t);
    var u := s'.threads[t];
    if s'.counter == s.counter {
      SumUpdate(s.threads, t, u, Fails);
      SumUpdate(s.threads, t, u, Stale(s.counter));
    } else {
      SuccessPays(s, t, u);
    }
  }

  lemma {:induction false} RunKeeps(stop: int, s: State, run: seq<nat>)
    requires stop >= 0 && Counted(stop, s) && Paid(s) && ValidRun(stop, s, run)
    ensures var f := Final(stop, s, run);
            Counted(stop, f) && Paid(f) && |f.threads| == |s.threads| && |f.log| == |s.log| + |run|
    decreases |run|
  {
    if run != [] {
      StepCounts(stop, s, run[0]);
      StepPays(stop, s, run[0]);
      RunKeeps(stop, Next(stop, s, run[0]), run[1..]);
    }
  }

  // ----- what the program promises -----

  lemma {:induction false} AllDone(ts: seq<Thread>)
    ensures (forall t :: t in ts ==> t.pc.Finished?) ==> Sum(ts, Done) == |ts| && Sum(ts, InTry) == 0
    ensures 0 <= Sum(ts, Done) <= |ts| && 0 <= Sum(ts, InTry) <= |ts|
    ensures Sum(ts, Done) + Sum(ts, InTry) <= |ts|
  {
    if ts != [] {
      AllDone(ts[1..]);
      assert forall t :: t in ts[1..] ==> t in ts;
      if forall t :: t in ts ==> t.pc.Finished? {
        assert ts[0] in ts;
      }
    }
  }

  lemma {:induction false} FailsAtTheEnd(ts: seq<Thread>)
    requires forall t :: t in ts ==> t.pc.Finished?
    ensures Sum(ts, Fails) == Sum(ts, (t: Thread) => t.fails)
  {
    SumSame(ts, Fails, (t: Thread) => t.fails);
  }

  /**
    For any number of threads in any interleaving: once all have finished, the counter has passed `stop`
    by the number of threads, as the program asserts; the threads' counts add up to it and their even counts to
    its half rounded up; and the failures they counted are the reads of the counter minus twice the
    increments, which is how the simulator computes them from the trace.
  */
  lemma FinalCounter(stop: int, n: nat, run: seq<nat>)
    requires stop >= 0 && n > 0 && ValidRun(stop, Initial(n), run) && AllFinished(Final(stop, Initial(n), run))
    ensures var s := Final(stop, Initial(n), run);
            && s.counter == stop + n && |s.threads| == n
            && Sum(s.threads, Count) == s.counter
            && Sum(s.threads, EvenCount) == (s.counter + 1) / 2
            && ThreadsCounted(s)
            && Sum(s.threads, (t: Thread) => t.fails)
               == ReadsOf(s.log) + SwapsOf(s.log, true) + SwapsOf(s.log, false) - 2 * s.counter
  {
    var s := Final(stop, Initial(n), run);
    InitialCounted(stop, n);
    RunKeeps(stop, Initial(n), run);
    RunThreadsCounted(stop, Initial(n), run);
    AllDone(s.threads);
    FailsAtTheEnd(s.threads);
  }

  /** In every reachable state the failures, and those already in store, are at most N - 1 for each success. */
  lemma FailuresAreBounded(stop: int, n: nat, run: seq<nat>)
    requires stop >= 0 && n > 0 && ValidRun(stop, Initial(n), run)
    ensures var s := Final(stop, Initial(n), run);
            SwapsOf(s.log, false) + Sum(s.threads, Stale(s.counter)) <= (n - 1) * SwapsOf(s.log, true)
  {
    InitialCounted(stop, n);
    RunKeeps(stop, Initial(n), run);
  }

  lemma {:induction false} LogLength(log: seq<Access>)
    ensures |log| == ReadsOf(log) + SwapsOf(log, true) + SwapsOf(log, false)
  {
    if log != [] {
      LogLength(log[..|log| - 1]);
    }
  }

  lemma StepBound(n: int, c: int, top: int, fails: int, stale: int, tries: int, length: int)
    requires n >= 1 && 0 <= c <= top && stale >= 0 && tries <= n
    requires fails + stale <= (n - 1) * c && length == (c + tries) + c + fails
    ensures length <= (n + 1) * top + n
  {
    assert (n - 1) * c + 2 * c == (n + 1) * c;
    assert (n + 1) * top == (n + 1) * c + (n + 1) * (top - c) && (n + 1) * (top - c) >= 0;
  }

  /**
    No scheduler can keep the program running: no run takes more than (N + 1)(stop + N) + N accesses to the
    counter, and a run that has not ended can go on.
  */
  lemma RunsAreBounded(stop: int, n: nat, run: seq<nat>)
    requires stop >= 0 && n > 0 && ValidRun(stop, Initial(n), run)
    ensures |run| <= (n + 1) * (stop + n) + n
    ensures var s := Final(stop, Initial(n), run); AllFinished(s) || exists t :: Enabled(s, t)
  {
    var s := Final(stop, Initial(n), run);
    InitialCounted(stop, n);
    RunKeeps(stop, Initial(n), run);
    AllDone(s.threads);
    LogLength(s.log);
    StaleIsNonnegative(s.threads, s.counter);
    var stale, trying := Sum(s.threads, Stale(s.counter)), Sum(s.threads, InTry);
    StepBound(n, s.counter, stop + n, SwapsOf(s.log, false), stale, trying, |run|);
    if !AllFinished(s) {
      var u :| u in s.threads && !u.pc.Finished?;
      var t :| 0 <= t < |s.threads| && s.threads[t] == u;
      assert Enabled(s, t);
    }
  }
}
