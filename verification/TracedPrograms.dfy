/** From a traced run of an increment program to the output that its simulator computes. */
module TracedPrograms {
  import opened Options
  import opened TraceLine
  import opened TraceOrder
  import opened TraceText
  import opened Access
  import opened Replay
  import opened TracerStore
  import opened TracerTrace
  import opened TracerResult
  import opened Tracer
  import opened Pipeline
  import S = Simulators
  import Inc
  import IncCas
  import Sums
  import opened SimulatorView
  import opened TraceShape

  // ----- what the simulator makes of the merged trace -----

  /** Every access that a simulator looks at is to the counter, and stamped after the allocation's return. */
  ghost predicate CounterOnly(kind: S.Kind, log: seq<Entry>, address: nat, size: int, since: int) {
    forall e :: e in log && LooksAt(kind, EventOf(e), address, size) ==>
      e.access.read1 == Some(Range(address, 8)) && (e.stamp.Some? ==> e.stamp.value > since)
  }

  lemma CounterTouched(a: Access, address: nat)
    requires a.read1 == Some(Range(address, 8))
    ensures Touches(a, address)
  {
    assert Ranges(a)[0] == Range(address, 8) && InRange(Range(address, 8), address);
  }

  /** A simulator looks at the same accesses in the same order in the run and in its replay. */
  lemma LookedAtInOrder(kind: S.Kind, log: seq<Entry>, replay: seq<Entry>, address: nat, size: int, since: int)
    requires multiset(replay) == multiset(log) && SameByteOrder(replay, log)
    requires CounterOnly(kind, log, address, size, since)
    ensures LookedAt(kind, replay, address, size) == LookedAt(kind, log, address, size)
  {
    hide LooksAt, EventOf, Touches;
    forall e | e in log && LooksAt(kind, EventOf(e), address, size) ensures Touches(e.access, address) {
      CounterTouched(e.access, address);
    }
    assert forall e :: e in replay <==> e in multiset(log);
    LookedAtTouching(kind, log, address, size);
    LookedAtTouching(kind, replay, address, size);
  }

  /** A line that a simulator looks at is at the counter and later than `since`. */
  lemma LinesAtCounter(
    kind: S.Kind, ls: seq<Line>, es: seq<Entry>, threads: map<Tid, ThreadData>, address: nat, size: int, since: int)
    requires Shows(ls, es, threads) && CounterOnly(kind, es, address, size, since)
    ensures forall l :: l in ls && LooksAt(kind, l.event, address, size) ==>
              l.event.read1 == Some(Range(address, 8)) && l.time > since
  {
    hide LooksAt;
    forall l | l in ls && LooksAt(kind, l.event, address, size)
      ensures l.event.read1 == Some(Range(address, 8)) && l.time > since
    {
      var i :| 0 <= i < |ls| && ls[i] == l;
      LineShows(es[i], threads[es[i].tid].uid);
      assert es[i] in es;
    }
  }

  lemma {:induction false} CountersOfLines(ls: seq<Line>, before: Operands, address: nat, size: int)
    requires forall l :: l in ls ==> LegalMemory(l.event)
    requires forall l :: l in ls && LooksAt(S.FetchAdd, l.event, address, size) ==>
               l.event.read1 == Some(Range(address, 8))
    ensures S.CountersOnly(S.Ready(address, size, {}), ExpectedCalls(ls, before))
    decreases |ls|
  {
    if ls != [] {
      var l, c := ls[0], CallFor(ls[0], before);
      CallIsLookedAt(l, before, address, size);
      assert l in ls;
      hide LooksAt, S.NearRmw, S.Near;
      CountersOfLines(ls[1..], c.operands, address, size);
    }
  }

  lemma MemoryOfWhole(x: Parts, call: Line, ret: Line)
    requires call.event.Call? && ret.event.Return?
    ensures MemoryLines(Whole(x, call, ret))
            == MemoryLines(x.before) + MemoryLines(x.between) + MemoryLines(x.after)
  {
    hide MemoryLines;
    MemorySnoc(x.before, call);
    MemoryAppend(x.before + [call], x.between);
    MemorySnoc(x.before + [call] + x.between, ret);
    MemoryAppend(x.before + [call] + x.between + [ret], x.after);
  }

  lemma EarlyLines(x: Parts, ret: Line, l: Line)
    requires Around(x, ret) && l in MemoryLines(x.before) + MemoryLines(x.between)
    ensures l.time <= ret.time
  {
    hide FreesOnly;
    if l in MemoryLines(x.before) {
      MemoryLinesIn(x.before, l);
    } else {
      MemoryLinesIn(x.between, l);
    }
  }

  /** Of the merged memory lines those after the allocation's return are all that matter. */
  lemma SeenAfter(kind: S.Kind, x: Parts, call: Line, ret: Line, address: int, size: int)
    requires Around(x, ret) && call.event.Call? && ret.event.Return?
    requires forall l :: l in MemoryLines(Whole(x, call, ret)) && LooksAt(kind, l.event, address, size) ==>
               l.time > ret.time
    ensures var ls, rest := MemoryLines(Whole(x, call, ret)), MemoryLines(x.after);
            && LineWriters(ls, address, size) == LineWriters(rest, address, size)
            && (kind.CompareAndSwap? ==> LineReads(ls, address, size) == LineReads(rest, address, size))
            && forall l :: l in rest ==> l in ls
  {
    hide LooksAt, Around, Whole, MemoryLines;
    MemoryOfWhole(x, call, ret);
    var first := MemoryLines(x.before) + MemoryLines(x.between);
    forall l | l in first ensures !LooksAt(kind, l.event, address, size) {
      EarlyLines(x, ret, l);
      assert l in MemoryLines(Whole(x, call, ret));
    }
    NobodyLooks(kind, first, address, size);
    LinesAppend(first, MemoryLines(x.after), address, size);
  }

  /**
    A run to be simulated: the registered threads have finished, its printed lines can be read back, no
    context change was traced, and what the simulator looks at is the counter, once it is allocated.
  */
  ghost predicate Traced(
    kind: S.Kind, cfg: Config, m: Memory, run: seq<Label>, lines: seq<string>, call: Line, ret: Line,
    address: nat, size: int)
  {
    && Complete(cfg, m, run)
    && var s := Final(cfg, Initial(cfg, m), run);
    var f := s.core.store.file;
    && Short(f) && lines == PrintLines(f) && PlainNames(f) && NoSwitch(f)
    && Allocation(f, call, ret, address, size) && CounterOnly(kind, s.log, address, size, ret.time)
  }

  /** What the run and the merged trace have in common for a simulator. */
  ghost predicate SeenBy(
    kind: S.Kind, log: seq<Entry>, threads: map<Tid, ThreadData>, address: nat, size: int, calls: seq<MemoryCall>)
  {
    var looked := LookedAt(kind, log, address, size);
    && S.Rmws(S.Ready(address, size, {}), calls) == Writers(looked, threads)
    && (kind.CompareAndSwap? ==> S.Reads(S.Ready(address, size, {}), calls) == PlainReads(looked))
  }

  lemma CallsAfter(kind: S.Kind, x: Parts, call: Line, ret: Line, o: Operands, log: seq<Entry>, replay: seq<Entry>,
                   threads: map<Tid, ThreadData>, address: nat, size: int)
    requires Around(x, ret) && call.event.Call? && ret.event.Return? && AllParsable(x.after)
    requires Shows(MemoryLines(Whole(x, call, ret)), replay, threads)
    requires multiset(replay) == multiset(log) && SameByteOrder(replay, log)
    requires CounterOnly(kind, log, address, size, ret.time)
    ensures var calls := MemoryCalls(Meanings(x.after, o));
            && S.CountersOnly(S.Ready(address, size, {}), calls)
            && SeenBy(kind, log, threads, address, size, calls)
  {
    hide LooksAt, Around, Whole, MemoryLines, Writers, PlainReads, Meanings, S.Rmws, S.Reads, EventOf, SameByteOrder;
    var ls, rest := MemoryLines(Whole(x, call, ret)), MemoryLines(x.after);
    assert CounterOnly(kind, replay, address, size, ret.time) by {
      assert forall e :: e in replay ==> e in multiset(log);
    }
    LinesAtCounter(kind, ls, replay, threads, address, size, ret.time);
    SeenAfter(kind, x, call, ret, address, size);
    LinesOfEntries(kind, ls, replay, threads, address, size);
    LookedAtInOrder(kind, log, replay, address, size, ret.time);
    MemoryOfMeanings(x.after, o);
    CallsOfLines(rest, o, address, size);
    forall l | l in rest && LooksAt(S.FetchAdd, l.event, address, size)
      ensures l.event.read1 == Some(Range(address, 8))
    {
      LooksAtWrite(l.event, address, size);
    }
    CountersOfLines(rest, o, address, size);
  }

  lemma {:induction false} NoneToSwitch(ls: seq<Line>)
    requires NoSwitch(ls)
    ensures BeforeSwitch(ls) == ls
  {
    if ls != [] {
      assert ls == [ls[0]] + ls[1..];
      NoneToSwitch(ls[1..]);
    }
  }

  lemma NothingSwitched(f: seq<Line>, merged: seq<Line>)
    requires multiset(merged) == multiset(NonSync(f)) && NoSwitch(f)
    ensures BeforeSwitch(merged) == merged
  {
    forall l | l in merged ensures !l.event.ContextChange? {
      MergedIn(f, merged, l);
    }
    NoneToSwitch(merged);
  }

  lemma CallbacksOfMerged(
    kind: S.Kind, f: seq<Line>, log: seq<Entry>, threads: map<Tid, ThreadData>, merged: seq<Line>, replay: seq<Entry>,
    call: Line, ret: Line, address: nat, size: int)
    returns (u: S.Setup, cs: seq<Callback>)
    requires Wf(Heads(f)) && multiset(merged) == multiset(NonSync(f)) && InTimeOrder(merged) && AllParsable(merged)
    requires Allocation(f, call, ret, address, size) && CounterOnly(kind, log, address, size, ret.time)
    requires multiset(replay) == multiset(log) && SameByteOrder(replay, log)
    requires Shows(MemoryLines(merged), replay, threads)
    ensures Meanings(merged, ZEROS) == S.CallbacksOf(u) + cs && S.WholeTrace(u, address, size, cs)
    ensures SeenBy(kind, log, threads, address, size, MemoryCalls(cs))
  {
    hide Whole, Around, Meanings, MemoryLines, InTurn, SeenBy, S.CountersOnly, S.Roster, S.Allocates,
         S.NoMalloc, S.CallbacksOf, NonSync, InTimeOrder, AllParsable, Wf, Heads, Shows, SameByteOrder, CounterOnly;
    var x, o;
    x := SplitAround(f, merged, call, ret, address, size);
    u, cs, o := CallbacksAround(x, call, ret, address, size);
    MergedInTurn(f, merged);
    RosterOfLines(merged, ZEROS);
    CallsAfter(kind, x, call, ret, o, log, replay, threads, address, size);
  }

  /** The merged trace is a whole trace to a simulator, with the run's accesses to the counter in their order. */
  method TraceToCallbacks(
    kind: S.Kind, ghost cfg: Config, ghost m: Memory, ghost run: seq<Label>, lines: seq<string>,
    ghost call: Line, ghost ret: Line, ghost address: nat, ghost size: int)
    returns (callbacks: seq<Callback>, ghost u: S.Setup, ghost cs: seq<Callback>)
    requires Traced(kind, cfg, m, run, lines, call, ret, address, size)
    ensures callbacks == S.CallbacksOf(u) + cs && S.WholeTrace(u, address, size, cs)
    ensures var s := Final(cfg, Initial(cfg, m), run);
            SeenBy(kind, s.log, s.core.store.threads, address, size, MemoryCalls(cs))
    ensures S.Replay(kind, S.New(), callbacks).Some?
  {
    var completed;
    ghost var merged, replay;
    callbacks, completed, merged, replay := TraceMergeSimulate(cfg, m, run, lines);
    ghost var s := Final(cfg, Initial(cfg, m), run);
    NothingSwitched(s.core.store.file, merged);
    CompleteFile(cfg, m, run);
    u, cs := CallbacksOfMerged(
      kind, s.core.store.file, s.log, s.core.store.threads, merged, replay, call, ret, address, size);
    S.WholeTraceReplayed(kind, u, address, size, cs);
  }

  // ----- the two programs -----

  /** The run made the increments of a finished run of the fetch-and-add program, in that order. */
  ghost predicate RunsInc(s: State, address: nat, size: int, stop: int, n: nat, incs: seq<nat>) {
    && stop >= 0 && n > 0 && Inc.ValidRun(stop, Inc.Initial(n), incs)
    && Inc.AllFinished(Inc.Final(stop, Inc.Initial(n), incs))
    && Writers(LookedAt(S.FetchAdd, s.log, address, size), s.core.store.threads)
       == Inc.Final(stop, Inc.Initial(n), incs).log
  }

  /**
    The whole way of the fetch-and-add program. Trace any interleaving of it, merge the file without `-t` and
    run the simulator on the output: it accepts the trace and finds the counter, every thread's increments,
    and how many of them found an even value.
  */
  method IncIsSimulated(
    ghost cfg: Config, ghost m: Memory, ghost run: seq<Label>, lines: seq<string>,
    ghost call: Line, ghost ret: Line, ghost address: nat, ghost size: int,
    ghost stop: int, ghost n: nat, ghost incs: seq<nat>)
    returns (sim: S.IncSim, accepted: bool)
    requires Traced(S.FetchAdd, cfg, m, run, lines, call, ret, address, size)
    requires RunsInc(Final(cfg, Initial(cfg, m), run), address, size, stop, n, incs)
    ensures accepted && sim.value == stop + n
    ensures var ts := Inc.Final(stop, Inc.Initial(n), incs).threads;
            && |ts| == n
            && forall k :: 0 <= k < n ==>
                 && S.Get(sim.increments, k) == ts[k].count
                 && S.Get(sim.evenIncrements, k) == ts[k].evenCount
  {
    var callbacks;
    ghost var u, cs;
    callbacks, u, cs := TraceToCallbacks(S.FetchAdd, cfg, m, run, lines, call, ret, address, size);
    Inc.FinalCounter(stop, n, incs);
    S.IncOutputReplayed(stop, n, incs, u, address, size, cs);
    hide Traced, S.WholeTrace, Inc.Final, S.Replay;
    sim := new S.IncSim();
    accepted := sim.Simulate(callbacks);
  }

  /** An access to the counter as the compare-and-swap program makes it. */
  predicate Performed(e: Entry, uid: int, a: IncCas.Access, address: nat, logCasFails: bool) {
    && uid == a.thread && e.access.read1 == Some(Range(address, 8)) && e.access.read2.None?
    && match a
       case Read(_) => e.access.write.None?
       case Swap(_, done) =>
         && e.access.write == e.access.read1 && e.access.stampedAfter == !logCasFails
         && e.access.op(e.got).Some? == done
  }

  /** The run made the accesses of a run of the compare-and-swap program, in that order. */
  ghost predicate Performs(
    es: seq<Entry>, threads: map<Tid, ThreadData>, log: seq<IncCas.Access>, address: nat, logCasFails: bool)
  {
    && |es| == |log|
    && forall i :: 0 <= i < |log| ==>
         es[i].tid in threads && Performed(es[i], threads[es[i].tid].uid, log[i], address, logCasFails)
  }

  lemma {:induction false} WritersSnoc(es: seq<Entry>, e: Entry, threads: map<Tid, ThreadData>)
    ensures Writers(es + [e], threads)
            == Writers(es, threads)
               + (if EventOf(e).write.Some? && e.tid in threads then [threads[e.tid].uid] else [])
    ensures PlainReads(es + [e]) == PlainReads(es) + (if EventOf(e).write.None? then 1 else 0)
  {
    hide EventOf;
    if es == [] {
      assert es + [e] == [e];
    } else {
      assert (es + [e])[1..] == es[1..] + [e];
      WritersSnoc(es[1..], e, threads);
    }
  }

  lemma PerformedShows(e: Entry, uid: int, a: IncCas.Access, address: nat, logCasFails: bool)
    requires Performed(e, uid, a, address, logCasFails)
    ensures EventOf(e).write.Some? <==> S.TracedAsRmw(a, logCasFails)
  {
  }

  /** A failed swap is traced as a read, or as a write too if failures are logged. */
  lemma {:induction false} PerformedCounts(
    es: seq<Entry>, threads: map<Tid, ThreadData>, log: seq<IncCas.Access>, address: nat, logCasFails: bool)
    requires Performs(es, threads, log, address, logCasFails)
    ensures Writers(es, threads) == S.TracedRmws(log, logCasFails)
    ensures PlainReads(es) == |log| - |S.TracedRmws(log, logCasFails)|
    decreases |log|
  {
    if log != [] {
      var k := |log| - 1;
      hide Performed, EventOf, S.TracedAsRmw;
      assert es == es[..k] + [es[k]];
      WritersSnoc(es[..k], es[k], threads);
      PerformedShows(es[k], threads[es[k].tid].uid, log[k], address, logCasFails);
      PerformedThread(es[k], threads[es[k].tid].uid, log[k], address, logCasFails);
      PerformedCounts(es[..k], threads, log[..k], address, logCasFails);
    }
  }

  lemma PerformedThread(e: Entry, uid: int, a: IncCas.Access, address: nat, logCasFails: bool)
    requires Performed(e, uid, a, address, logCasFails)
    ensures uid == a.thread
  {
  }

  /** The run made the accesses of a run of the compare-and-swap program to its counter. */
  ghost predicate RunsCas(cfg: Config, s: State, address: nat, size: int, stop: int, n: nat, steps: seq<nat>) {
    && stop >= 0 && n > 0 && IncCas.ValidRun(stop, IncCas.Initial(n), steps)
    && IncCas.AllFinished(IncCas.Final(stop, IncCas.Initial(n), steps))
    && Performs(LookedAt(S.CompareAndSwap, s.log, address, size), s.core.store.threads,
                IncCas.Final(stop, IncCas.Initial(n), steps).log, address, cfg.logCasFails)
  }

  lemma CasTrace(cfg: Config, s: State, address: nat, size: int, stop: int, n: nat, steps: seq<nat>,
                 u: S.Setup, cs: seq<Callback>)
    requires RunsCas(cfg, s, address, size, stop, n, steps) && S.WholeTrace(u, address, size, cs)
    requires SeenBy(S.CompareAndSwap, s.log, s.core.store.threads, address, size, MemoryCalls(cs))
    ensures S.TraceOfCas(u, address, size, cs, IncCas.Final(stop, IncCas.Initial(n), steps).log, cfg.logCasFails)
    ensures stop >= 0 && n > 0 && IncCas.ValidRun(stop, IncCas.Initial(n), steps)
    ensures IncCas.AllFinished(IncCas.Final(stop, IncCas.Initial(n), steps))
  {
    var log := IncCas.Final(stop, IncCas.Initial(n), steps).log;
    hide S.WholeTrace, IncCas.Final, Performs, S.Rmws, S.Reads;
    PerformedCounts(LookedAt(S.CompareAndSwap, s.log, address, size), s.core.store.threads, log, address,
                    cfg.logCasFails);
  }

  /**
    The whole way of the compare-and-swap program. The simulator accepts the trace. Without `-c` it finds the
    counter, every thread's increments, and in the reads it saw all failures that the threads counted; with
    `-c` it finds the counter if and only if no swap failed.
  */
  method CasIsSimulated(
    ghost cfg: Config, ghost m: Memory, ghost run: seq<Label>, lines: seq<string>,
    ghost call: Line, ghost ret: Line, ghost address: nat, ghost size: int,
    ghost stop: int, ghost n: nat, ghost steps: seq<nat>)
    returns (sim: S.CasSim, accepted: bool)
    requires Traced(S.CompareAndSwap, cfg, m, run, lines, call, ret, address, size)
    requires RunsCas(cfg, Final(cfg, Initial(cfg, m), run), address, size, stop, n, steps)
    ensures accepted
    ensures var s := IncCas.Final(stop, IncCas.Initial(n), steps);
            if cfg.logCasFails then sim.value == stop + n <==> IncCas.SwapsOf(s.log, false) == 0
            else
              && sim.value == stop + n && |s.threads| == n
              && (forall k :: 0 <= k < n ==> S.Get(sim.increments, k) == s.threads[k].count)
              && S.Total(sim.readCounts) - 2 * sim.value == Sums.Sum(s.threads, (t: IncCas.Thread) => t.fails)
  {
    var callbacks;
    ghost var u, cs;
    callbacks, u, cs := TraceToCallbacks(S.CompareAndSwap, cfg, m, run, lines, call, ret, address, size);
    CasTrace(cfg, Final(cfg, Initial(cfg, m), run), address, size, stop, n, steps, u, cs);
    IncCas.FinalCounter(stop, n, steps);
    hide Traced, RunsCas, S.WholeTrace, IncCas.Final, IncCas.ValidRun, S.Replay, S.Total, Sums.Sum, S.TraceOfCas;
    if cfg.logCasFails {
      S.LoggedFailuresBreakTheCount(stop, n, steps, u, address, size, cs);
    } else {
      S.CasOutputReplayed(stop, n, steps, u, address, size, cs);
    }
    sim := new S.CasSim();
    accepted := sim.Simulate(callbacks);
  }
}
