/** The test program that increments one counter with fetch-and-add, as threads interleaved in any way. */
module Inc {
  import opened Sums

  datatype Thread = Thread(finished: bool, count: int, evenCount: int)

  /** `log` is the thread of each increment, in order. */
  datatype State = State(counter: int, threads: seq<Thread>, log: seq<nat>)

  function Initial(n: nat): State {
    State(0, seq(n, _ => Thread(false, 0, 0)), [])
  }

  predicate Enabled(s: State, t: nat) {
    t < |s.threads| && !s.threads[t].finished
  }

  /** One round of the loop of thread `t`. */
  function Next(stop: int, s: State, t: nat): State
    requires Enabled(s, t)
  {
    var was, u := s.counter, s.threads[t];
    var after := Thread(!(was < stop), u.count + 1, if was % 2 == 0 then u.evenCount + 1 else u.evenCount);
    State(was + 1, s.threads[t := after], s.log + [t])
  }

  predicate ValidRun(stop: int, s: State, run: seq<nat>)
    decreases |run|
  {
    run == [] || (Enabled(s, run[0]) && ValidRun(stop, Next(stop, s, run[0]), run[1..]))
  }

  function Final(stop: int, s: State, run: seq<nat>): State
    requires ValidRun(stop, s, run)
    decreases |run|
  {
    if run == [] then s else Final(stop, Next(stop, s, run[0]), run[1..])
  }

  predicate AllFinished(s: State) {
    forall t :: t in s.threads ==> t.finished
  }

  function Count(t: Thread): int {
    t.count
  }

  function EvenCount(t: Thread): int {
    t.evenCount
  }

  function Done(t: Thread): int {
    if t.finished then 1 else 0
  }

  /** What a thread counted is what the list of increments says about it. */
  ghost predicate ThreadCounted(s: State, t: nat)
    requires t < |s.threads|
  {
    s.threads[t].count == CountIn(s.log, t) && s.threads[t].evenCount == EvenIn(s.log, t)
  }

  ghost predicate Counted(stop: int, s: State) {
    && s.counter == |s.log|
    && Sum(s.threads, Count) == s.counter
    && Sum(s.threads, EvenCount) == (s.counter + 1) / 2
    && Sum(s.threads, Done) == (if s.counter <= stop then 0 else s.counter - stop)
    && forall t :: 0 <= t < |s.threads| ==> ThreadCounted(s, t)
  }

  lemma StepCounts(stop: int, s: State, t: nat)
    requires stop >= 0 && Counted(stop, s) && Enabled(s, t)
    ensures Counted(stop, Next(stop, s, t))
  {
    hide Sum, CountIn, EvenIn;
    var s' := Next(stop, s, t);
    var u := s'.threads[t];
    SumUpdate(s.threads, t, u, Count);
    SumUpdate(s.threads, t, u, EvenCount);
    SumUpdate(s.threads, t, u, Done);
    forall q | 0 <= q < |s'.threads| ensures ThreadCounted(s', q) {
      assert ThreadCounted(s, q);
      InSnoc(s.log, t, q);
    }
  }

  lemma InitialCounted(stop: int, n: nat)
    requires stop >= 0
    ensures Counted(stop, Initial(n))
  {
    var t := Thread(false, 0, 0);
    SumRepeat(n, t, Count);
    SumRepeat(n, t, EvenCount);
    SumRepeat(n, t, Done);
  }

  lemma {:induction false} RunKeeps(stop: int, s: State, run: seq<nat>)
    requires stop >= 0 && Counted(stop, s) && ValidRun(stop, s, run)
    ensures Counted(stop, Final(stop, s, run)) && |Final(stop, s, run).threads| == |s.threads|
    decreases |run|
  {
    if run != [] {
      StepCounts(stop, s, run[0]);
      RunKeeps(stop, Next(stop, s, run[0]), run[1..]);
    }
  }

  lemma {:induction false} AllDone(ts: seq<Thread>)
    requires forall t :: t in ts ==> t.finished
    ensures Sum(ts, Done) == |ts|
  {
    SumBounds(ts, Done, 1, 1);
  }

  /**
    For any number of threads in any interleaving: once all have finished, the counter has passed `stop` by
    the number of threads; counts add up to it and even counts to its half rounded up; and each thread's
    count and even count can be read off the order of the increments.
  */
  lemma FinalCounter(stop: int, n: nat, run: seq<nat>)
    requires stop >= 0 && n > 0 && ValidRun(stop, Initial(n), run) && AllFinished(Final(stop, Initial(n), run))
    ensures var s := Final(stop, Initial(n), run);
            && s.counter == stop + n
            && Sum(s.threads, Count) == s.counter && Sum(s.threads, EvenCount) == (s.counter + 1) / 2
            && |s.threads| == n
            && forall t :: 0 <= t < n ==>
                 s.threads[t].count == CountIn(s.log, t) && s.threads[t].evenCount == EvenIn(s.log, t)
  {
    var s := Final(stop, Initial(n), run);
    InitialCounted(stop, n);
    RunKeeps(stop, Initial(n), run);
    AllDone(s.threads);
    forall t | 0 <= t < n
      ensures s.threads[t].count == CountIn(s.log, t) && s.threads[t].evenCount == EvenIn(s.log, t)
    {
      assert ThreadCounted(s, t);
    }
  }
}
