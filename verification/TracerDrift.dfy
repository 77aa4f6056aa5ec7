/** How far the clocks of live threads can drift apart. */
module TracerDrift {
  import opened Access
  import opened TracerStore
  import opened TracerCore
  import opened TracerLag
  import opened TracerBuffers
  import opened Tracer
  import opened TracerRuns
  import opened TracerAwake

  lemma TimelyRunKeeps(cfg: Config, m: Memory, run: seq<Label>)
    requires Sane(cfg) && ValidRun(cfg, Initial(cfg, m), run) && TimelyRun(cfg, Initial(cfg, m), run)
    ensures var c := Final(cfg, Initial(cfg, m), run).core; CoreInv(c) && LagInv(cfg, c)
  {
    EmptyCoreInv();
    EmptyLagInv(cfg);
    MergeableWhenAwake(cfg, m, run);
    RunKeeps(cfg, Initial(cfg, m), run);
  }

  lemma StepBoundsLag(cfg: Config, s: State, l: Label)
    requires cfg.lag > 0 && CoreInv(s.core) && LagInv(cfg, s.core)
    requires Enabled(cfg, s, l) && CoreStep(cfg, s, l).Some? && CoreStep(cfg, s, l).value.Local?
    requires var c := CoreStep(cfg, s, l).value;
             c.p in s.core.store.threads && |s.core.store.threads[c.p].buffer| + 1 >= cfg.accessesFlush
    ensures LagBounded(cfg, Next(cfg, s, l).core, CoreStep(cfg, s, l).value.time)
  {
    hide Enabled, Next, CoreNext, CoreEnabled, CoreInv, LagInv, LagBounded;
    StepMovesCore(cfg, s, l);
    var c := CoreStep(cfg, s, l).value;
    LocalWrites(cfg, s.core, c.p, c.time, c.event);
    WriteBoundsLag(cfg, s.core, c.p, c.time, c.event);
  }

  /**
    In every state reached by a run whose trace file is legal: when an event of a registered thread is the
    `accessesFlush`-th in its buffer, which sends the buffer to the file, every live registered thread's clock is
    above the event's time minus 1.75 times the allowed difference, but for those that a flush of laggards in
    progress has still to reach.
  */
  lemma LagIsBounded(cfg: Config, m: Memory, run: seq<Label>, l: Label, u: Tid)
    requires Sane(cfg) && ValidRun(cfg, Initial(cfg, m), run) && TimelyRun(cfg, Initial(cfg, m), run)
    requires var s := Final(cfg, Initial(cfg, m), run);
             Enabled(cfg, s, l) && CoreStep(cfg, s, l).Some? && CoreStep(cfg, s, l).value.Local?
    requires var s := Final(cfg, Initial(cfg, m), run);
             var t := Next(cfg, s, l).core;
             && CoreStep(cfg, s, l).value.p in s.core.store.threads
             && |s.core.store.threads[CoreStep(cfg, s, l).value.p].buffer| + 1 >= cfg.accessesFlush
             && u in t.store.live && u in t.store.threads && t.store.threads[u].uid >= 0
    ensures var s := Final(cfg, Initial(cfg, m), run);
            var t, time := Next(cfg, s, l).core, CoreStep(cfg, s, l).value.time;
            || 4 * (time - t.store.threads[u].clock) < 7 * cfg.lag
            || exists q :: q in t.pending && u in t.pending[q].others
  {
    TimelyRunKeeps(cfg, m, run);
    hide Initial, Final, ValidRun, Enabled, Next, CoreInv, LagInv, CoreStep;
    var s := Final(cfg, Initial(cfg, m), run);
    StepBoundsLag(cfg, s, l);
    var t := Next(cfg, s, l).core;
    assert Within(cfg, t.store, u, CoreStep(cfg, s, l).value.time) || Listed(t, u);
  }
}
