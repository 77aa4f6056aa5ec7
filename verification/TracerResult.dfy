/** What the trace file contains once the registered threads have finished. */
module TracerResult {
  import opened TraceLine
  import opened TraceOrder
  import opened Access
  import opened Replay
  import opened TracerStore
  import opened TracerFile
  import opened TracerCore
  import opened Tracer
  import opened TracerAtomic
  import opened TracerEmission
  import opened TracerMergeable
  import opened TracerAwake
  import opened TracerTrace

  // ----- finished threads are between instructions -----

  ghost predicate AtRest(s: State) {
    && s.control.Keys == s.core.store.threads.Keys
    && forall p :: p in s.control && p !in s.core.store.live ==> s.control[p].stage.Between?
  }

  lemma OtherRests(cfg: Config, s: State, c: CoreLabel)
    requires cfg.lag > 0 && AtRest(s) && Enabled(cfg, s, Other(c))
    ensures AtRest(Next(cfg, s, Other(c)))
  {
    hide Enabled, Next, CoreNext, CoreEnabled, ClocksRise;
    OtherShape(cfg, s, c);
    StepMovesThreads(cfg, s.core, c);
  }

  lemma FooterRests(cfg: Config, s: State, p: Tid)
    requires cfg.lag > 0 && AtRest(s) && Enabled(cfg, s, Footer(p))
    ensures AtRest(Next(cfg, s, Footer(p)))
  {
    hide CoreNext, CoreEnabled, ClocksRise;
    StepMovesThreads(cfg, s.core, FooterLabel(s, p));
  }

  lemma StepRests(cfg: Config, s: State, l: Label)
    requires cfg.lag > 0 && AtRest(s) && Enabled(cfg, s, l)
    ensures AtRest(Next(cfg, s, l))
  {
    match l
    case Footer(p) => FooterRests(cfg, s, p);
    case Other(c) => OtherRests(cfg, s, c);
    case _ =>
  }

  lemma {:induction false} RunRests(cfg: Config, s: State, run: seq<Label>)
    requires cfg.lag > 0 && AtRest(s) && ValidRun(cfg, s, run)
    ensures AtRest(Final(cfg, s, run))
    decreases |run|
  {
    if run != [] {
      StepRests(cfg, s, run[0]);
      RunRests(cfg, Next(cfg, s, run[0]), run[1..]);
    }
  }

  /** No live thread has a user id: all that registered have finished. */
  ghost predicate AllDone(s: State) {
    forall p :: p in s.core.store.live && p in s.core.store.threads ==> s.core.store.threads[p].uid < 0
  }

  lemma DoneIsStamped(cfg: Config, s: State)
    requires AtomicInv(cfg, s) && Linked(s) && AtRest(s) && AllDone(s)
    ensures Stamped(s.log) && forall p :: p in s.control ==> s.control[p].stage.Between?
  {
    forall p | p in s.control ensures s.control[p].stage.Between? {
      assert LinkedThread(s, p);
    }
    forall e | e in s.log ensures e.stamp.Some? {
      var k :| 0 <= k < |s.log| && s.log[k] == e;
      assert EntryOk(s, k);
    }
  }

  // ----- nothing is lost -----

  /** With nothing left in a buffer the file holds exactly what was emitted. */
  lemma FileIsAll(s: Store)
    requires Streams(s) && forall p :: p in s.threads ==> s.threads[p].buffer == []
    ensures multiset(s.file) == multiset(s.emitted)
    ensures forall u :: ByUid(s.file, u) == ByUid(s.emitted, u)
  {
    forall u ensures ByUid(s.file, u) == ByUid(s.emitted, u) {
      if u != -1 {
        if Known(s, u) {
          var p :| p in s.threads && s.threads[p].uid == u;
          assert u >= 0;
          assert ByUid(s.file, u) + [] == ByUid(s.file, u);
        } else {
          ByUidSame(s.file, u);
          ByUidSame(s.emitted, u);
        }
      }
    }
    forall l: Line ensures multiset(s.file)[l] == multiset(s.emitted)[l] {
      CountByUid(s.file, l);
      CountByUid(s.emitted, l);
    }
  }

  /** The lines that the merge utility prints. */
  function NonSync(f: seq<Line>): seq<Line> {
    if f == [] then []
    else NonSync(f[..|f| - 1]) + (if f[|f| - 1].event.Sync? then [] else [f[|f| - 1]])
  }

  lemma {:induction false} CountNonSync(f: seq<Line>, l: Line)
    ensures multiset(NonSync(f))[l] == if l.event.Sync? then 0 else multiset(f)[l]
  {
    if f != [] {
      assert f == f[..|f| - 1] + [f[|f| - 1]];
      CountNonSync(f[..|f| - 1], l);
    }
  }

  lemma {:induction false} CountMemory(f: seq<Line>, l: Line)
    ensures multiset(MemoryLines(f))[l] == if l.event.Memory? then multiset(f)[l] else 0
  {
    if f != [] {
      assert f == f[..|f| - 1] + [f[|f| - 1]];
      CountMemory(f[..|f| - 1], l);
    }
  }

  /** Memory lines survive merging and rearranging. */
  lemma MemoryOfMerged(f: seq<Line>, merged: seq<Line>)
    requires multiset(merged) == multiset(NonSync(f))
    ensures multiset(MemoryLines(merged)) == multiset(MemoryLines(f))
  {
    forall l: Line ensures multiset(MemoryLines(merged))[l] == multiset(MemoryLines(f))[l] {
      CountMemory(merged, l);
      CountNonSync(f, l);
      CountMemory(f, l);
    }
  }

  ghost predicate InTimeOrder(f: seq<Line>) {
    forall i, j :: 0 <= i < j < |f| ==> f[i].time <= f[j].time
  }

  lemma {:induction false} MemoryInOrder(f: seq<Line>)
    requires InTimeOrder(f)
    ensures InTimeOrder(MemoryLines(f))
  {
    if f != [] {
      var g, l := f[..|f| - 1], f[|f| - 1];
      MemoryInOrder(g);
      forall x | x in MemoryLines(g) ensures x.time <= l.time {
        MemoryLinesIn(g, x);
      }
    }
  }

  /** The state at the end of a run in which all registered threads have finished. */
  ghost predicate Complete(cfg: Config, m: Memory, run: seq<Label>) {
    && Sane(cfg) && ValidRun(cfg, Initial(cfg, m), run) && TimelyRun(cfg, Initial(cfg, m), run)
    && AllDone(Final(cfg, Initial(cfg, m), run))
  }

  lemma CompleteFile(cfg: Config, m: Memory, run: seq<Label>)
    requires Complete(cfg, m, run)
    ensures var s := Final(cfg, Initial(cfg, m), run);
            && Wf(Heads(s.core.store.file)) && Active(Heads(s.core.store.file)) == map[]
            && multiset(s.core.store.file) == multiset(s.core.store.emitted)
            && Stamped(s.log) && (forall p :: p in s.control ==> !s.control[p].stage.Ready?)
  {
    var s0, s := Initial(cfg, m), Final(cfg, Initial(cfg, m), run);
    MergeableExactly(cfg, m, run);
    MergeableWhenAwake(cfg, m, run);
    InitialInv(cfg, m);
    RunIsAtomic(cfg, s0, run);
    RunKeepsLinks(cfg, s0, run);
    RunRests(cfg, s0, run);
    DoneIsStamped(cfg, s);
    FileIsAll(s.core.store);
  }

  /**
    Whatever order merging gives to lines of equal time, the memory lines of the merged trace are a
    faithful replay of the run: the lines of an arrangement of all executed accesses which, executed one
    at a time from the initial memory, reads what the real run read and ends in its memory.
  */
  lemma MergedTraceReplays(cfg: Config, m: Memory, run: seq<Label>, merged: seq<Line>) returns (replay: seq<Entry>)
    requires Complete(cfg, m, run)
    requires multiset(merged) == multiset(NonSync(Final(cfg, Initial(cfg, m), run).core.store.file))
    requires InTimeOrder(merged)
    ensures var s := Final(cfg, Initial(cfg, m), run);
            && multiset(replay) == multiset(s.log) && Shows(MemoryLines(merged), replay, s.core.store.threads)
            && Reproduces(m, replay) && RunFrom(m, replay) == s.memory && SameByteOrder(replay, s.log)
  {
    var s := Final(cfg, Initial(cfg, m), run);
    CompleteFile(cfg, m, run);
    MemoryOfMerged(s.core.store.file, merged);
    MemoryOfFile(s.core.store.file, s.core.store.emitted);
    MemoryInOrder(merged);
    replay := TraceReproducesRun(cfg, m, run, MemoryLines(merged));
  }

  lemma MemoryOfFile(f: seq<Line>, em: seq<Line>)
    requires multiset(f) == multiset(em)
    ensures multiset(MemoryLines(f)) == multiset(MemoryLines(em))
  {
    forall l: Line ensures multiset(MemoryLines(f))[l] == multiset(MemoryLines(em))[l] {
      CountMemory(f, l);
      CountMemory(em, l);
    }
  }
}
