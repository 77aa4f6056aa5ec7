/** What holds in every state that an interleaving of the traced threads can reach. */
module TracerRuns {
  import opened Options
  import opened TraceLine
  import opened TraceOrder
  import opened Access
  import opened TracerStore
  import opened TracerFile
  import opened TracerBroadcast
  import opened TracerCore
  import opened TracerLag
  import opened Tracer

  /** The part of a step that touches clocks, buffers and the file. */
  ghost function CoreStep(cfg: Config, s: State, l: Label): Option<CoreLabel>
    requires Enabled(cfg, s, l)
  {
    match l
    case Footer(p) => Some(FooterLabel(s, p))
    case Other(c) => Some(c)
    case _ => None
  }

  lemma StepMovesCore(cfg: Config, s: State, l: Label)
    requires Enabled(cfg, s, l)
    ensures match CoreStep(cfg, s, l)
            case Some(c) => CoreEnabled(cfg, s.core, c) && Next(cfg, s, l).core == CoreNext(cfg, s.core, c)
            case None => Next(cfg, s, l).core == s.core
  {
  }

  /** Every broadcast of the run starts while some live clock has reached the top of the file. */
  ghost predicate AnchoredRun(cfg: Config, s: State, run: seq<Label>)
    requires ValidRun(cfg, s, run)
    decreases |run|
  {
    run == []
    || (&& (var c := CoreStep(cfg, s, run[0]);
            c.Some? && IsBroadcast(cfg, s.core, c.value) ==> Anchored(s.core.store))
        && AnchoredRun(cfg, Next(cfg, s, run[0]), run[1..]))
  }

  /** The line of every broadcast of the run may follow what is in the file. */
  ghost predicate FittingRun(cfg: Config, s: State, run: seq<Label>)
    requires ValidRun(cfg, s, run)
    decreases |run|
  {
    run == []
    || (&& (var c := CoreStep(cfg, s, run[0]);
            c.Some? && IsBroadcast(cfg, s.core, c.value) ==> Fits(s.core, c.value))
        && FittingRun(cfg, Next(cfg, s, run[0]), run[1..]))
  }

  lemma {:induction false} RunKeeps(cfg: Config, s: State, run: seq<Label>)
    requires cfg.lag > 0 && CoreInv(s.core) && LagInv(cfg, s.core)
    requires ValidRun(cfg, s, run) && FittingRun(cfg, s, run)
    ensures CoreInv(Final(cfg, s, run).core) && LagInv(cfg, Final(cfg, s, run).core)
    decreases |run|
  {
    if run != [] {
      StepMovesCore(cfg, s, run[0]);
      var c := CoreStep(cfg, s, run[0]);
      if c.Some? {
        StepKeepsFile(cfg, s.core, c.value);
        StepKeepsLag(cfg, s.core, c.value);
      }
      RunKeeps(cfg, Next(cfg, s, run[0]), run[1..]);
    }
  }

  lemma AllFinished(s: Store)
    requires FileInv(s, s.live) && forall p :: p in s.live && p in s.threads ==> s.threads[p].uid < 0
    ensures Active(Heads(s.file)) == map[] && forall p :: p in s.threads ==> s.threads[p].buffer == []
  {
    forall p | p in s.threads ensures s.threads[p].buffer == [] {
      assert BufferOk(s, s.live, p);
    }
    forall u ensures u !in Active(Heads(s.file)) {
      if u in Active(Heads(s.file)) {
        ActiveBounds(Heads(s.file), u);
      }
    }
  }

  // ----- what goes wrong otherwise -----

  /** A broadcast that finds nobody to flush. */
  lemma QuietAnnounce(cfg: Config, s: Store, p: Tid, n: int, e: Event)
    requires p in s.threads && s.threads[p].uid == -1 && s.threads[p].buffer == [] && s.live == {p}
    requires n - s.cache <= cfg.lag
    ensures var t := Broadcast(cfg, s, p, n, e);
            && t.file == s.file + [Line(n, -1, e)] && t.live == s.live && t.cache == s.cache
            && t.threads == s.threads[p := ThreadData(-1, n, [])]
  {
    OwnLineFields(cfg, s, p, Line(n, -1, e));
    var t := Broadcast(cfg, s, p, n, e);
    assert Touch(cfg, Emit(s, p, Line(n, -1, e)), p, n, true).others == [];
    assert t.threads == s.threads[p := ThreadData(-1, n, [])];
  }

  /** One more step at the end of a run. */
  lemma {:induction false} ExtendRun(cfg: Config, s: State, run: seq<Label>, l: Label)
    requires ValidRun(cfg, s, run) && Enabled(cfg, Final(cfg, s, run), l)
    ensures ValidRun(cfg, s, run + [l]) && Final(cfg, s, run + [l]) == Next(cfg, Final(cfg, s, run), l)
    decreases |run|
  {
    if run == [] {
      assert [] + [l] == [l];
      assert [l][1..] == [];
    } else {
      assert (run + [l])[1..] == run[1..] + [l];
      ExtendRun(cfg, Next(cfg, s, run[0]), run[1..], l);
    }
  }

  const SOME_CALL := Call("f", 0, 0, 0, 0)

  /** Only unregistered, idle threads, nothing pending, nothing in a buffer. */
  ghost predicate Quiet(s: State, live: set<Tid>, threads: map<Tid, ThreadData>, file: seq<Line>) {
    && s.core.store.live == live && s.core.store.threads == threads && s.core.store.file == file
    && s.core.store.cache == 0 && s.core.pending == map[] && s.core.owner == None
    && s.control.Keys == threads.Keys && live <= threads.Keys
    && forall p :: p in s.control ==> Idle(s, p)
  }

  lemma BeginQuiet(cfg: Config, s: State, p: Tid, live: set<Tid>, threads: map<Tid, ThreadData>, file: seq<Line>)
    requires Sane(cfg) && cfg.registerThreads && Quiet(s, live, threads, file) && p !in threads
    ensures Enabled(cfg, s, Other(Begin(p, -1)))
    ensures Quiet(Next(cfg, s, Other(Begin(p, -1))), live + {p}, threads[p := ThreadData(-1, 0, [])], file)
  {
  }

  lemma EndQuiet(cfg: Config, s: State, p: Tid, live: set<Tid>, threads: map<Tid, ThreadData>, file: seq<Line>)
    requires Sane(cfg) && Quiet(s, live, threads, file) && p in live && threads[p].uid == -1 && threads[p].buffer == []
    ensures Enabled(cfg, s, Other(End(p)))
    ensures Quiet(Next(cfg, s, Other(End(p))), live - {p}, threads, file)
  {
  }

  lemma AnnounceQuiet(cfg: Config, s: State, p: Tid, clock: nat, threads: map<Tid, ThreadData>, file: seq<Line>)
    requires Sane(cfg) && Quiet(s, {p}, threads, file) && threads[p] == ThreadData(-1, clock, [])
    requires clock + 1 <= cfg.lag
    ensures Enabled(cfg, s, Other(Announce(p, SOME_CALL)))
    ensures Quiet(Next(cfg, s, Other(Announce(p, SOME_CALL))), {p}, threads[p := ThreadData(-1, clock + 1, [])],
                  file + [Line(clock + 1, -1, SOME_CALL)])
  {
    hide Broadcast;
    assert NextTime(s.core.store) == clock + 1;
    QuietAnnounce(cfg, s.core.store, p, clock + 1, SOME_CALL);
  }

  lemma InitialQuiet(cfg: Config, m: Memory)
    requires Sane(cfg)
    ensures Quiet(Initial(cfg, m), {}, map[], [])
  {
  }

  lemma NoSteps(cfg: Config, s: State)
    ensures ValidRun(cfg, s, []) && Final(cfg, s, []) == s
  {
  }

  /** A first thread starts and calls a traced function. */
  lemma FallBackStart(cfg: Config, m: Memory) returns (run: seq<Label>)
    requires Sane(cfg) && cfg.registerThreads
    ensures ValidRun(cfg, Initial(cfg, m), run)
    ensures Quiet(Final(cfg, Initial(cfg, m), run), {0}, map[0 := ThreadData(-1, 1, [])], [Line(1, -1, SOME_CALL)])
  {
    hide Initial, Enabled, Next, ValidRun, Final, Quiet;
    var s := Initial(cfg, m);
    InitialQuiet(cfg, m);
    NoSteps(cfg, s);
    BeginQuiet(cfg, s, 0, {}, map[], []);
    run := Grow(cfg, s, [], Other(Begin(0, -1)));
    assert {} + {0} == {0};
    AnnounceQuiet(cfg, Final(cfg, s, run), 0, 0, map[0 := ThreadData(-1, 0, [])], []);
    run := Grow(cfg, s, run, Other(Announce(0, SOME_CALL)));
    assert map[0 := ThreadData(-1, 0, [])][0 := ThreadData(-1, 1, [])] == map[0 := ThreadData(-1, 1, [])];
    assert [] + [Line(1, -1, SOME_CALL)] == [Line(1, -1, SOME_CALL)];
  }

  /** A second thread starts and the first one ends. */
  lemma FallBackSwap(cfg: Config, s: State, run: seq<Label>, threads: map<Tid, ThreadData>, file: seq<Line>)
    returns (longer: seq<Label>)
    requires Sane(cfg) && cfg.registerThreads && ValidRun(cfg, s, run)
    requires threads == map[0 := ThreadData(-1, 1, [])] && Quiet(Final(cfg, s, run), {0}, threads, file)
    ensures ValidRun(cfg, s, longer)
    ensures Quiet(Final(cfg, s, longer), {1}, threads[1 := ThreadData(-1, 0, [])], file)
  {
    hide Initial, Enabled, Next, ValidRun, Final, Quiet;
    BeginQuiet(cfg, Final(cfg, s, run), 1, {0}, threads, file);
    longer := Grow(cfg, s, run, Other(Begin(1, -1)));
    EndQuiet(cfg, Final(cfg, s, longer), 0, {0} + {1}, threads[1 := ThreadData(-1, 0, [])], file);
    longer := Grow(cfg, s, longer, Other(End(0)));
    assert {0} + {1} - {0} == {1};
  }

  /**
    A condition is needed. An unregistered thread that calls a traced function and
    ends while only a younger thread is live takes the highest clock with it: the next call of an
    unregistered thread repeats its time.
  */
  lemma ClocksCanFallBack(cfg: Config, m: Memory)
    requires Sane(cfg) && cfg.registerThreads
    ensures exists run ::
              && ValidRun(cfg, Initial(cfg, m), run)
              && Final(cfg, Initial(cfg, m), run).core.store.file == [Line(1, -1, SOME_CALL), Line(1, -1, SOME_CALL)]
    ensures !Wf(Heads([Line(1, -1, SOME_CALL), Line(1, -1, SOME_CALL)]))
  {
    hide Enabled, Next, ValidRun, Final, Wf, Heads;
    var s := Initial(cfg, m);
    var threads, file := map[0 := ThreadData(-1, 1, [])], [Line(1, -1, SOME_CALL)];
    var run := FallBackStart(cfg, m);
    run := FallBackSwap(cfg, s, run, threads, file);
    AnnounceQuiet(cfg, Final(cfg, s, run), 1, 0, threads[1 := ThreadData(-1, 0, [])], file);
    run := Grow(cfg, s, run, Other(Announce(1, SOME_CALL)));
    RepeatedTime(Line(1, -1, SOME_CALL));
    assert file + [Line(1, -1, SOME_CALL)] == [Line(1, -1, SOME_CALL), Line(1, -1, SOME_CALL)];
  }

  lemma Grow(cfg: Config, s: State, run: seq<Label>, l: Label) returns (longer: seq<Label>)
    requires ValidRun(cfg, s, run) && Enabled(cfg, Final(cfg, s, run), l)
    ensures ValidRun(cfg, s, longer) && Final(cfg, s, longer) == Next(cfg, Final(cfg, s, run), l)
  {
    ExtendRun(cfg, s, run, l);
    longer := run + [l];
  }

  lemma RepeatedTime(l: Line)
    requires l.uid == -1
    ensures !Wf(Heads([l, l]))
  {
    var h := HeadOf(l);
    assert Heads([l, l]) == [h] + [h];
    Snoc([h], h);
    TopIsMaximum([h]);
    assert h in [h];
  }
}
