/**
  When the clocks lead the file. A thread that starts unregistered has clock 0 until an event under all
  thread locks, or a flush, moves it; from then on it is as late as the last such event.
*/
module TracerAwake {
  import opened TraceLine
  import opened TraceOrder
  import opened Access
  import opened TracerStore
  import opened TracerFile
  import opened TracerCore
  import opened TracerLag
  import opened TracerFlush
  import opened Tracer
  import opened TracerAtomic
  import opened TracerRuns
  import opened TracerMergeable
  import opened TracerTrace

  /** Nothing was traced yet, or some live thread has seen an event under all thread locks. */
  ghost predicate SomeAwake(s: Store) {
    s.file == [] || exists q :: q in s.live && q in s.threads && s.threads[q].clock != 0
  }

  // ----- the invariant -----

  ghost predicate LiveRegistered(s: Store, q: Tid) {
    q in s.live && q in s.threads && s.threads[q].uid >= 0
  }

  /** A live thread has clock 0 or has reached `b`, the time of the last event under all thread locks. */
  ghost predicate ClocksReach(s: Store, b: int) {
    && b >= 0 && (b == 0 ==> s.file == [])
    && (forall q :: q in s.live && q in s.threads ==> s.threads[q].clock == 0 || s.threads[q].clock >= b)
    && (forall q :: LiveRegistered(s, q) ==> b > 0 && s.threads[q].clock >= b)
  }

  /** What is in the file is no later than that event, or than the clock of a live registered thread. */
  ghost predicate FileReached(s: Store, b: int) {
    Top(Heads(s.file)) <= b || exists r :: LiveRegistered(s, r) && Top(Heads(s.file)) <= s.threads[r].clock
  }

  /** A flush decided before that event can no longer move a clock. */
  ghost predicate FlushesPast(c: Core, b: int) {
    && (forall p :: p in c.pending ==> p in c.store.threads && c.store.threads[p].uid >= 0)
    && (forall p, u :: p in c.pending && u in c.pending[p].others ==>
          u in c.store.threads && (c.pending[p].time >= b || u !in c.store.live || c.store.threads[u].clock >= b))
  }

  ghost predicate AwakeInv(c: Core, b: int) {
    ClocksReach(c.store, b) && FileReached(c.store, b) && FlushesPast(c, b)
  }

  lemma LinesHavePositiveTop(f: seq<Line>)
    requires Wf(Heads(f)) && f != []
    ensures Top(Heads(f)) > 0
  {
    var hs := Heads(f);
    assert LineOk(hs[..|hs| - 1], hs[|hs| - 1]);
  }

  /** The condition on clocks is a condition on who is live. */
  lemma AnchoredIsAwake(c: Core, b: int)
    requires CoreInv(c) && AwakeInv(c, b)
    ensures Anchored(c.store) <==> SomeAwake(c.store)
  {
    var s := c.store;
    if s.file != [] {
      LinesHavePositiveTop(s.file);
    } else {
      assert Heads(s.file) == [];
    }
  }

  lemma RegisteredIsAwake(c: Core, b: int, p: Tid)
    requires CoreInv(c) && AwakeInv(c, b) && LiveRegistered(c.store, p)
    ensures Anchored(c.store)
  {
    AnchoredIsAwake(c, b);
  }

  // ----- steps -----

  lemma AfterSynchronised(c: Core, t: Store, n: int)
    requires Synchronised(c.store, t, n) && n > 0
    requires t.live <= t.threads.Keys && c.store.threads.Keys <= t.threads.Keys
    requires forall p :: p in c.pending ==> p in c.store.threads && c.store.threads[p].uid >= 0 && t.threads[p].uid >= 0
    requires forall p, u :: p in c.pending && u in c.pending[p].others ==> u in c.store.threads
    ensures AwakeInv(c.(store := t), n)
  {
  }

  lemma BroadcastSynchronises(cfg: Config, c: Core, l: CoreLabel)
    requires cfg.lag > 0 && CoreInv(c) && CoreEnabled(cfg, c, l) && IsBroadcast(cfg, c, l) && Fits(c, l)
    ensures var t := CoreNext(cfg, c, l).store;
            && Synchronised(c.store, t, NextTime(c.store))
            && t.live <= t.threads.Keys && c.store.threads.Keys <= t.threads.Keys
  {
    hide FileInv, Broadcast, RegisterThread, StartThread, FinishThread, Synchronised;
    var s := c.store;
    match l
    case Announce(p, e) =>
      AnnounceKeeps(cfg, s, p, e);
      LiveIsKnown(Broadcast(cfg, s, p, NextTime(s), e), Broadcast(cfg, s, p, NextTime(s), e).live);
    case Join(p, uid) =>
      JoinKeeps(cfg, s, p, uid);
      LiveIsKnown(RegisterThread(cfg, s, p, uid, NextTime(s)), RegisterThread(cfg, s, p, uid, NextTime(s)).live);
    case Begin(p, uid) =>
      BeginKeeps(cfg, s, p, uid);
      LiveIsKnown(StartThread(cfg, s, p, uid, NextTime(s)), StartThread(cfg, s, p, uid, NextTime(s)).live);
    case End(p) =>
      EndKeeps(cfg, s, p);
      LiveIsKnown(FinishThread(cfg, s, p, NextTime(s)), FinishThread(cfg, s, p, NextTime(s)).live);
    case _ =>
  }

  lemma BroadcastMovesStore(cfg: Config, c: Core, l: CoreLabel)
    requires CoreEnabled(cfg, c, l) && IsBroadcast(cfg, c, l)
    ensures CoreNext(cfg, c, l) == c.(store := CoreNext(cfg, c, l).store)
    ensures l.Join? ==> l.p !in c.pending
  {
    hide Broadcast, RegisterThread, StartThread, FinishThread;
  }

  lemma BroadcastAwake(cfg: Config, c: Core, l: CoreLabel, b: int)
    requires cfg.lag > 0 && CoreInv(c) && AwakeInv(c, b) && CoreEnabled(cfg, c, l)
    requires IsBroadcast(cfg, c, l) && Fits(c, l)
    ensures AwakeInv(CoreNext(cfg, c, l), NextTime(c.store))
  {
    hide CoreNext, CoreEnabled, Synchronised, FileInv, ClocksReach, FileReached;
    BroadcastSynchronises(cfg, c, l);
    BroadcastMovesStore(cfg, c, l);
    StepKeepsUids(cfg, c, l);
    AfterSynchronised(c, CoreNext(cfg, c, l).store, NextTime(c.store));
  }

  /** Laggards come from the table. */
  lemma OthersHaveRows(cfg: Config, s: Store, p: Tid, l: Line)
    requires cfg.lag > 0 && RowsOk(s) && p in s.threads && l.time >= s.threads[p].clock
    ensures var t := Touch(cfg, Emit(s, p, l), p, l.time, false); forall u :: u in t.others ==> u in s.threads
  {
    var t := Touch(cfg, Emit(s, p, l), p, l.time, false);
    TouchRows(cfg, s, p, l, false);
    TouchClocks(cfg, s, p, l, false);
    LaggardRows(cfg, t.store.lastFlushed, l.time);
    hide Insert, Erase;
  }

  /** A touch by a live registered thread moves its clock alone. */
  ghost predicate TouchMoves(s: Store, t: Store, p: Tid, time: int) {
    && LiveRegistered(s, p) && time >= s.threads[p].clock
    && t.live == s.live && t.threads.Keys == s.threads.Keys
    && (forall q :: q in s.threads ==>
          t.threads[q].uid == s.threads[q].uid && t.threads[q].clock == if q == p then time else s.threads[q].clock)
  }

  lemma TouchedReaches(s: Store, t: Store, p: Tid, time: int, b: int)
    requires ClocksReach(s, b) && TouchMoves(s, t, p, time)
    ensures ClocksReach(t, b)
  {
  }

  lemma TouchedFile(s: Store, t: Store, p: Tid, time: int, b: int)
    requires FileReached(s, b) && TouchMoves(s, t, p, time) && TopGrowsTo(s, t, time)
    ensures FileReached(t, b)
  {
    hide Top, Heads;
    assert LiveRegistered(t, p) && t.threads[p].clock == time;
    if r :| LiveRegistered(s, r) && Top(Heads(s.file)) <= s.threads[r].clock {
      assert LiveRegistered(t, r) && Top(Heads(s.file)) <= t.threads[r].clock;
    }
  }

  lemma TouchedFlushes(c: Core, t: Touched, p: Tid, time: int, b: int)
    requires ClocksReach(c.store, b) && FlushesPast(c, b) && TouchMoves(c.store, t.store, p, time)
    requires forall u :: u in t.others ==> u in c.store.threads
    ensures FlushesPast(AfterTouch(c, t, p, time), b)
  {
  }

  lemma TouchedAwake(c: Core, t: Touched, p: Tid, time: int, b: int)
    requires AwakeInv(c, b) && TouchMoves(c.store, t.store, p, time)
    requires TopGrowsTo(c.store, t.store, time) && forall u :: u in t.others ==> u in c.store.threads
    ensures AwakeInv(AfterTouch(c, t, p, time), b)
  {
    hide ClocksReach, FileReached, FlushesPast, TouchMoves, TopGrowsTo;
    TouchedReaches(c.store, t.store, p, time, b);
    TouchedFile(c.store, t.store, p, time, b);
    TouchedFlushes(c, t, p, time, b);
  }

  lemma LocalMoves(cfg: Config, c: Core, p: Tid, time: int, e: Event)
    requires cfg.lag > 0 && CoreInv(c) && FlushInv(cfg, c) && CoreEnabled(cfg, c, Local(p, time, e))
    ensures p in c.store.threads
    ensures var t := Touch(cfg, Emit(c.store, p, Line(time, c.store.threads[p].uid, e)), p, time, false);
            && TouchMoves(c.store, t.store, p, time) && TopGrowsTo(c.store, t.store, time)
            && (forall u :: u in t.others ==> u in c.store.threads)
            && CoreNext(cfg, c, Local(p, time, e)) == AfterTouch(c, t, p, time)
  {
    hide Touch, FileInv, TopGrowsTo, AfterTouch, RowsOk, Covers, FlushOther, Broadcast, RegisterThread, StartThread,
         FinishThread;
    var s, l := c.store, Line(time, c.store.threads[p].uid, e);
    TouchKeeps(cfg, s, s.live, p, l, false);
    TouchClocks(cfg, s, p, l, false);
    OthersHaveRows(cfg, s, p, l);
  }

  lemma LocalAwake(cfg: Config, c: Core, p: Tid, time: int, e: Event, b: int)
    requires cfg.lag > 0 && CoreInv(c) && FlushInv(cfg, c) && AwakeInv(c, b) && CoreEnabled(cfg, c, Local(p, time, e))
    ensures AwakeInv(CoreNext(cfg, c, Local(p, time, e)), b)
  {
    hide Touch, AwakeInv, CoreInv, FlushInv, CoreNext, CoreEnabled, TouchMoves, TopGrowsTo, AfterTouch;
    LocalMoves(cfg, c, p, time, e);
    var l := Line(time, c.store.threads[p].uid, e);
    TouchedAwake(c, Touch(cfg, Emit(c.store, p, l), p, time, false), p, time, b);
  }

  lemma FlushedAwake(c: Core, t: Store, p: Tid, b: int)
    requires AwakeInv(c, b) && p in c.pending && c.pending[p].others != [] && LiveRegistered(c.store, p)
    requires c.pending[p].time <= c.store.threads[p].clock
    requires t.live == c.store.live && t.threads.Keys == c.store.threads.Keys
    requires var u, time := c.pending[p].others[0], c.pending[p].time;
             && TopGrowsTo(c.store, t, time)
             && forall q :: q in c.store.threads ==>
                  && t.threads[q].uid == c.store.threads[q].uid && c.store.threads[q].clock <= t.threads[q].clock
                  && (t.threads[q].clock == c.store.threads[q].clock
                      || (q == u && q in c.store.live && t.threads[q].clock == time))
    ensures AwakeInv(Core(t, c.pending[p := c.pending[p].(others := c.pending[p].others[1..])], c.owner), b)
  {
    hide Top, Heads;
    var u := c.pending[p].others[0];
    assert u in c.pending[p].others;
    assert LiveRegistered(t, p);
    if r :| LiveRegistered(c.store, r) && Top(Heads(c.store.file)) <= c.store.threads[r].clock {
      assert LiveRegistered(t, r) && Top(Heads(c.store.file)) <= t.threads[r].clock;
    }
  }

  lemma FlushOneAwake(cfg: Config, c: Core, p: Tid, b: int)
    requires cfg.lag > 0 && CoreInv(c) && AwakeInv(c, b) && CoreEnabled(cfg, c, FlushOne(p))
    ensures AwakeInv(CoreNext(cfg, c, FlushOne(p)), b)
  {
    var s, d := c.store, c.pending[p];
    FlushOtherKeeps(cfg, s, s.live, d.others[0], d.time);
    FlushOtherClocks(cfg, s, d.others[0], d.time);
    hide FlushOther, AwakeInv, FileInv, Lags;
    assert LiveRegistered(s, p) by {
      PendingIsRegistered(c, p, b);
    }
    FlushedAwake(c, FlushOther(cfg, s, d.others[0], d.time), p, b);
  }

  lemma PendingIsRegistered(c: Core, p: Tid, b: int)
    requires PendingOk(c) && AwakeInv(c, b) && p in c.pending
    ensures LiveRegistered(c.store, p)
  {
  }

  lemma BornAwake(c: Core, t: Store, p: Tid, b: int)
    requires AwakeInv(c, b) && c.store.live <= c.store.threads.Keys && p !in c.store.threads
    requires t.live == c.store.live + {p} && t.threads == c.store.threads[p := ThreadData(-1, 0, [])]
    requires t.file == c.store.file
    ensures AwakeInv(c.(store := t), b)
  {
    hide Top, Heads;
    if r :| LiveRegistered(c.store, r) && Top(Heads(t.file)) <= c.store.threads[r].clock {
      assert LiveRegistered(t, r) && Top(Heads(t.file)) <= t.threads[r].clock;
    }
  }

  lemma SilentBeginAwake(cfg: Config, c: Core, p: Tid, b: int)
    requires cfg.registerThreads && CoreInv(c) && AwakeInv(c, b) && CoreEnabled(cfg, c, Begin(p, -1))
    ensures AwakeInv(CoreNext(cfg, c, Begin(p, -1)), b)
  {
    hide AwakeInv, Insert;
    BornAwake(c, CoreNext(cfg, c, Begin(p, -1)).store, p, b);
  }

  lemma LeftAwake(c: Core, t: Store, p: Tid, b: int)
    requires AwakeInv(c, b) && t == c.store.(live := c.store.live - {p})
    requires p in c.store.threads && c.store.threads[p].uid < 0
    ensures AwakeInv(c.(store := t), b)
  {
    hide Top, Heads;
    if r :| LiveRegistered(c.store, r) && Top(Heads(t.file)) <= c.store.threads[r].clock {
      assert LiveRegistered(t, r) && Top(Heads(t.file)) <= t.threads[r].clock;
    }
  }

  lemma SilentEndAwake(cfg: Config, c: Core, p: Tid, b: int)
    requires CoreInv(c) && AwakeInv(c, b) && CoreEnabled(cfg, c, End(p)) && c.store.threads[p].uid < 0
    ensures AwakeInv(CoreNext(cfg, c, End(p)), b)
  {
    assert BufferOk(c.store, c.store.live, p);
    hide AwakeInv, Broadcast, StartThread, RegisterThread, Erase;
    LeftAwake(c, c.store.(live := c.store.live - {p}), p, b);
  }

  /** The time of the last event under all thread locks, after a step. */
  ghost function LastGlobal(cfg: Config, c: Core, l: CoreLabel, b: int): int
    requires c.store.live <= c.store.threads.Keys
  {
    if IsBroadcast(cfg, c, l) then NextTime(c.store) else b
  }

  lemma BroadcastIsAnchored(cfg: Config, c: Core, l: CoreLabel, b: int)
    requires CoreInv(c) && AwakeInv(c, b) && CoreEnabled(cfg, c, l) && IsBroadcast(cfg, c, l) && !NeedsTop(cfg, c, l)
    ensures Anchored(c.store)
  {
    match l
    case Announce(p, _) =>
      UidIsNotNegative(c, p);
      RegisteredIsAwake(c, b, p);
    case End(p) => RegisteredIsAwake(c, b, p);
    case _ =>
  }

  lemma FlushEdgeAwake(cfg: Config, c: Core, l: CoreLabel, b: int)
    requires AwakeInv(c, b) && CoreEnabled(cfg, c, l) && (l.FlushEnter? || l.FlushLeave?)
    ensures AwakeInv(CoreNext(cfg, c, l), b)
  {
  }

  lemma StepKeepsAwake(cfg: Config, c: Core, l: CoreLabel, b: int)
    requires cfg.lag > 0 && CoreInv(c) && FlushInv(cfg, c) && AwakeInv(c, b) && CoreEnabled(cfg, c, l)
    requires NeedsTop(cfg, c, l) ==> Fits(c, l)
    ensures AwakeInv(CoreNext(cfg, c, l), LastGlobal(cfg, c, l, b))
  {
    hide CoreInv, FlushInv, AwakeInv, Anchored, Fits, NextTime, CoreNext;
    if IsBroadcast(cfg, c, l) {
      if !NeedsTop(cfg, c, l) {
        BroadcastIsAnchored(cfg, c, l, b);
        AnchoredFits(c, l);
      }
      BroadcastAwake(cfg, c, l, b);
    } else {
      match l
      case Local(p, time, e) => LocalAwake(cfg, c, p, time, e, b);
      case FlushEnter(p) => FlushEdgeAwake(cfg, c, l, b);
      case FlushOne(p) => FlushOneAwake(cfg, c, p, b);
      case FlushLeave(p) => FlushEdgeAwake(cfg, c, l, b);
      case Begin(p, uid) => SilentBeginAwake(cfg, c, p, b);
      case End(p) => SilentEndAwake(cfg, c, p, b);
      case _ =>
    }
  }

  // ----- which lines fit -----

  /**
    What a user can see of it before a thread registers or an unregistered thread is traced: nothing was
    traced yet, or some live thread has seen an event under all thread locks, or a thread registers and
    nothing in the file is later than time 1.
  */
  ghost predicate Timely(s: Store, l: CoreLabel) {
    SomeAwake(s) || (!l.Announce? && Top(Heads(s.file)) <= 1)
  }

  /** A file of finished threads that ends at time 1 ends with a line of an unregistered thread. */
  lemma OnlySilent(f: seq<Head>)
    requires Wf(f) && f != [] && Active(f) == map[] && Top(f) <= 1
    ensures LastSilent(f) == 1
  {
    var g, h := f[..|f| - 1], f[|f| - 1];
    assert f == g + [h];
    Snoc(g, h);
    assert h.uid != -1 && h.tag != TagFinish ==> h.uid in Active(f);
    if h.tag == TagFinish && h.uid in Active(g) {
      ActiveBounds(g, h.uid);
    }
  }

  lemma ActiveIsAwake(c: Core, b: int, u: int)
    requires CoreInv(c) && AwakeInv(c, b) && u in Active(Heads(c.store.file))
    ensures SomeAwake(c.store)
  {
    var s := c.store;
    ActiveBounds(Heads(s.file), u);
    assert Owned(s, s.live, u);
    var q :| q in s.threads && q in s.live && s.threads[q].uid == u;
    assert LiveRegistered(s, q) && s.threads[q].clock != 0;
  }

  lemma NobodyActive(c: Core, b: int)
    requires CoreInv(c) && AwakeInv(c, b) && !SomeAwake(c.store)
    ensures Active(Heads(c.store.file)) == map[]
  {
    hide CoreInv, AwakeInv, SomeAwake, Active, Heads;
    forall u ensures u !in Active(Heads(c.store.file)) {
      if u in Active(Heads(c.store.file)) {
        ActiveIsAwake(c, b, u);
      }
    }
  }

  lemma AsleepFits(c: Core, l: CoreLabel, b: int)
    requires CoreInv(c) && AwakeInv(c, b) && !SomeAwake(c.store)
    requires l.Announce? ==> l.p in c.store.threads && c.store.threads[l.p].uid == -1
    ensures Fits(c, l) <==> !l.Announce? && Top(Heads(c.store.file)) <= 1
  {
    hide AwakeInv, Top, Active, LastSilent;
    assert NextTime(c.store) == 1;
    NobodyActive(c, b);
    if Top(Heads(c.store.file)) <= 1 {
      OnlySilent(Heads(c.store.file));
    }
  }

  /** The condition on the line is a condition on who is live. */
  lemma FitsIsTimely(cfg: Config, c: Core, l: CoreLabel, b: int)
    requires CoreInv(c) && AwakeInv(c, b) && NeedsTop(cfg, c, l)
    ensures Fits(c, l) <==> Timely(c.store, l)
  {
    hide CoreInv, AwakeInv, SomeAwake, Fits, Top, Heads;
    AnchoredIsAwake(c, b);
    if SomeAwake(c.store) {
      AnchoredFits(c, l);
    } else {
      AsleepFits(c, l, b);
    }
  }

  // ----- runs -----

  /** Whenever a thread registers, or an unregistered thread is traced, its line is timely. */
  ghost predicate TimelyRun(cfg: Config, s: State, run: seq<Label>)
    requires ValidRun(cfg, s, run)
    decreases |run|
  {
    run == []
    || (&& (var c := CoreStep(cfg, s, run[0]);
            c.Some? && NeedsTop(cfg, s.core, c.value) ==> Timely(s.core.store, c.value))
        && TimelyRun(cfg, Next(cfg, s, run[0]), run[1..]))
  }

  /** The same without the exception: no registration repeats the time of an earlier line. */
  ghost predicate AwakeRun(cfg: Config, s: State, run: seq<Label>)
    requires ValidRun(cfg, s, run)
    decreases |run|
  {
    run == []
    || (&& (var c := CoreStep(cfg, s, run[0]);
            c.Some? && NeedsTop(cfg, s.core, c.value) ==> SomeAwake(s.core.store))
        && AwakeRun(cfg, Next(cfg, s, run[0]), run[1..]))
  }

  ghost predicate AllInv(cfg: Config, c: Core, b: int) {
    cfg.lag > 0 && CoreInv(c) && FlushInv(cfg, c) && AwakeInv(c, b)
  }

  lemma EmptyAllInv(cfg: Config)
    requires cfg.lag > 0
    ensures AllInv(cfg, EMPTY_CORE, 0)
  {
    EmptyCoreInv();
    assert Heads([]) == [];
  }

  /** A broadcast that needs no place at the top of the file starts with some live clock there. */
  lemma BroadcastFits(cfg: Config, c: Core, l: CoreLabel, b: int)
    requires CoreInv(c) && AwakeInv(c, b) && CoreEnabled(cfg, c, l) && IsBroadcast(cfg, c, l)
    requires NeedsTop(cfg, c, l) ==> Timely(c.store, l)
    ensures Fits(c, l)
    ensures (NeedsTop(cfg, c, l) ==> SomeAwake(c.store)) <==> Anchored(c.store)
  {
    hide CoreInv, AwakeInv, CoreEnabled, Timely, SomeAwake, Anchored, Fits;
    AnchoredIsAwake(c, b);
    if NeedsTop(cfg, c, l) {
      FitsIsTimely(cfg, c, l, b);
    } else {
      BroadcastIsAnchored(cfg, c, l, b);
      AnchoredFits(c, l);
    }
  }

  /** One step of a run whose condition has held so far. */
  lemma StepKeepsAll(cfg: Config, s: State, l: Label, b: int) returns (b': int)
    requires AllInv(cfg, s.core, b) && Enabled(cfg, s, l)
    requires var c := CoreStep(cfg, s, l);
             c.Some? && NeedsTop(cfg, s.core, c.value) ==> Timely(s.core.store, c.value)
    ensures AllInv(cfg, Next(cfg, s, l).core, b')
    ensures var c := CoreStep(cfg, s, l);
            c.Some? && IsBroadcast(cfg, s.core, c.value) ==>
              && Fits(s.core, c.value)
              && ((NeedsTop(cfg, s.core, c.value) ==> SomeAwake(s.core.store)) <==> Anchored(s.core.store))
  {
    hide Enabled, Next, CoreNext, CoreEnabled, SomeAwake, Anchored, Timely, Fits, CoreInv, FlushInv, AwakeInv;
    StepMovesCore(cfg, s, l);
    var c := CoreStep(cfg, s, l);
    if c.None? {
      b' := b;
    } else {
      if IsBroadcast(cfg, s.core, c.value) {
        BroadcastFits(cfg, s.core, c.value, b);
      }
      StepKeepsAwake(cfg, s.core, c.value, b);
      StepStaysLegal(cfg, s.core, c.value);
      StepKeepsFlush(cfg, s.core, c.value);
      b' := LastGlobal(cfg, s.core, c.value, b);
    }
  }

  /** On the times of lines and on who is live, where it matters and at every broadcast: one condition. */
  lemma {:induction false} ConditionsAgree(cfg: Config, s: State, run: seq<Label>, b: int)
    requires AllInv(cfg, s.core, b) && ValidRun(cfg, s, run)
    ensures ClocksLead(cfg, s, run) <==> TimelyRun(cfg, s, run)
    ensures FittingRun(cfg, s, run) <==> TimelyRun(cfg, s, run)
    decreases |run|
  {
    if run != [] {
      var c := CoreStep(cfg, s, run[0]);
      if c.Some? && NeedsTop(cfg, s.core, c.value) {
        FitsIsTimely(cfg, s.core, c.value, b);
        assert IsBroadcast(cfg, s.core, c.value);
      }
      if !(c.Some? && NeedsTop(cfg, s.core, c.value)) || Timely(s.core.store, c.value) {
        hide AllInv, Enabled, Next, Timely, Fits;
        var b' := StepKeepsAll(cfg, s, run[0], b);
        ConditionsAgree(cfg, Next(cfg, s, run[0]), run[1..], b');
      }
    }
  }

  lemma {:induction false} StrictConditionsAgree(cfg: Config, s: State, run: seq<Label>, b: int)
    requires AllInv(cfg, s.core, b) && ValidRun(cfg, s, run)
    ensures AnchoredRun(cfg, s, run) <==> AwakeRun(cfg, s, run)
    ensures AwakeRun(cfg, s, run) ==> TimelyRun(cfg, s, run)
    decreases |run|
  {
    if run != [] {
      var c := CoreStep(cfg, s, run[0]);
      if c.Some? && NeedsTop(cfg, s.core, c.value) && !SomeAwake(s.core.store) {
        AnchoredIsAwake(s.core, b);
        assert IsBroadcast(cfg, s.core, c.value);
      } else {
        var b' := StepKeepsAll(cfg, s, run[0], b);
        hide AllInv, Enabled, Next, Fits, Anchored, SomeAwake;
        StrictConditionsAgree(cfg, Next(cfg, s, run[0]), run[1..], b');
      }
    }
  }

  /**
    Under every interleaving, also of the flushes of other threads' buffers, the trace file is a legal
    input for the merge utility if and only if, whenever a thread registered or an unregistered thread
    was traced, nothing had been traced yet, or some live thread had seen an event under all thread locks,
    or a thread registered and nothing in the file was later than time 1.
  */
  lemma MergeableWhenAwake(cfg: Config, m: Memory, run: seq<Label>)
    requires Sane(cfg) && ValidRun(cfg, Initial(cfg, m), run)
    ensures Wf(Heads(Final(cfg, Initial(cfg, m), run).core.store.file)) <==> TimelyRun(cfg, Initial(cfg, m), run)
    ensures FittingRun(cfg, Initial(cfg, m), run) <==> TimelyRun(cfg, Initial(cfg, m), run)
  {
    EmptyAllInv(cfg);
    ConditionsAgree(cfg, Initial(cfg, m), run, 0);
    MergeableExactly(cfg, m, run);
  }

  // ----- threads that are traced from their start -----

  /** No thread starts after all threads have ended, once something was traced. */
  ghost predicate NoRestart(cfg: Config, s: State, run: seq<Label>)
    requires ValidRun(cfg, s, run)
    decreases |run|
  {
    run == []
    || (&& (run[0].Other? && run[0].core.Begin? ==> s.core.store.live != {} || s.core.store.file == [])
        && NoRestart(cfg, Next(cfg, s, run[0]), run[1..]))
  }

  ghost predicate AllRegistered(s: Store) {
    forall p :: p in s.live ==> p in s.threads && s.threads[p].uid >= 0
  }

  lemma NamedAtStart(cfg: Config, c: Core, l: CoreLabel)
    requires !cfg.registerThreads && CoreEnabled(cfg, c, l)
    ensures (l.Begin? ==> l.uid >= 0) && !l.Join?
  {
  }

  lemma StepKeepsRegistered(cfg: Config, s: State, l: Label)
    requires cfg.lag > 0 && !cfg.registerThreads && AllRegistered(s.core.store) && Enabled(cfg, s, l)
    ensures AllRegistered(Next(cfg, s, l).core.store)
  {
    hide Enabled, Next, CoreNext, CoreEnabled;
    StepMovesCore(cfg, s, l);
    var c := CoreStep(cfg, s, l);
    if c.Some? {
      StepKeepsUids(cfg, s.core, c.value);
      StepMovesThreads(cfg, s.core, c.value);
      NamedAtStart(cfg, s.core, c.value);
    }
  }

  /** Once all threads have ended the file is past time 1. */
  ghost predicate EndedLate(s: Store) {
    s.live == {} && s.file != [] ==> Top(Heads(s.file)) >= 2
  }

  lemma EndIsLate(cfg: Config, c: Core, p: Tid, b: int)
    requires AllInv(cfg, c, b) && CoreEnabled(cfg, c, End(p)) && c.store.threads[p].uid >= 0
    ensures Top(Heads(CoreNext(cfg, c, End(p)).store.file)) >= 2
  {
    hide FileInv, FlushInv, Fits, FinishThread, Top, Heads;
    assert LiveRegistered(c.store, p) && NextTime(c.store) >= 2;
    BroadcastFits(cfg, c, End(p), b);
    EndKeeps(cfg, c.store, p);
  }

  lemma StepKeepsEndedLate(cfg: Config, c: Core, l: CoreLabel, b: int)
    requires AllInv(cfg, c, b) && CoreEnabled(cfg, c, l) && AllRegistered(c.store) && EndedLate(c.store)
    ensures EndedLate(CoreNext(cfg, c, l).store)
  {
    assert c.store.live == {} ==> l.Begin?;
    hide AllInv, CoreNext, Top, Heads, FileInv, FlushInv, AwakeInv;
    assert cfg.lag > 0 by {
      LagIsPositive(cfg, c, b);
    }
    StepMovesThreads(cfg, c, l);
    if l.End? {
      EndIsLate(cfg, c, l.p, b);
    }
  }

  lemma LagIsPositive(cfg: Config, c: Core, b: int)
    requires AllInv(cfg, c, b)
    ensures cfg.lag > 0
  {
  }

  lemma NotTimely(c: Core, l: CoreLabel, b: int)
    requires AwakeInv(c, b) && AllRegistered(c.store) && EndedLate(c.store)
    ensures Timely(c.store, l) <==> c.store.file == [] || c.store.live != {}
  {
    AwakeIsLive(c, b);
    hide Top, Heads, AwakeInv;
  }

  lemma {:induction false} RestartIsTheCondition(cfg: Config, s: State, run: seq<Label>, b: int)
    requires !cfg.registerThreads && AllRegistered(s.core.store) && EndedLate(s.core.store)
    requires AllInv(cfg, s.core, b) && ValidRun(cfg, s, run)
    ensures TimelyRun(cfg, s, run) <==> NoRestart(cfg, s, run)
    decreases |run|
  {
    if run != [] {
      var c := CoreStep(cfg, s, run[0]);
      NeedsTopIsBegin(cfg, s, run[0]);
      if c.Some? {
        NotTimely(s.core, c.value, b);
      }
      if !(c.Some? && c.value.Begin? && !Timely(s.core.store, c.value)) {
        hide AllInv, Enabled, Next, Timely, Fits, EndedLate, AllRegistered, NeedsTop;
        var b' := StepKeepsAll(cfg, s, run[0], b);
        RestartStep(cfg, s, run[0], b);
        RestartIsTheCondition(cfg, Next(cfg, s, run[0]), run[1..], b');
      }
    }
  }

  lemma RestartStep(cfg: Config, s: State, l: Label, b: int)
    requires !cfg.registerThreads && AllRegistered(s.core.store) && EndedLate(s.core.store)
    requires AllInv(cfg, s.core, b) && Enabled(cfg, s, l)
    ensures AllRegistered(Next(cfg, s, l).core.store) && EndedLate(Next(cfg, s, l).core.store)
  {
    hide AllInv, Enabled, Next, CoreNext, CoreEnabled, EndedLate, AllRegistered;
    LagIsPositive(cfg, s.core, b);
    StepKeepsRegistered(cfg, s, l);
    StepMovesCore(cfg, s, l);
    var c := CoreStep(cfg, s, l);
    if c.Some? {
      StepKeepsEndedLate(cfg, s.core, c.value, b);
    }
  }

  lemma AwakeIsLive(c: Core, b: int)
    requires AwakeInv(c, b) && AllRegistered(c.store)
    ensures SomeAwake(c.store) <==> c.store.file == [] || c.store.live != {}
  {
    forall q | q in c.store.live ensures c.store.threads[q].clock != 0 {
      assert LiveRegistered(c.store, q);
    }
  }

  lemma NeedsTopIsBegin(cfg: Config, s: State, l: Label)
    requires !cfg.registerThreads && AllRegistered(s.core.store) && Enabled(cfg, s, l)
    ensures var c := CoreStep(cfg, s, l); c.Some? && NeedsTop(cfg, s.core, c.value) <==> l.Other? && l.core.Begin?
  {
  }

  /**
    Where threads register when they start, the file is legal if and only if no thread starts after all
    threads have ended, once something was traced. The last thread may of course end.
  */
  lemma MergeableWithoutRestart(cfg: Config, m: Memory, run: seq<Label>)
    requires Sane(cfg) && !cfg.registerThreads && ValidRun(cfg, Initial(cfg, m), run)
    ensures Wf(Heads(Final(cfg, Initial(cfg, m), run).core.store.file)) <==> NoRestart(cfg, Initial(cfg, m), run)
  {
    EmptyAllInv(cfg);
    MergeableWhenAwake(cfg, m, run);
    RestartIsTheCondition(cfg, Initial(cfg, m), run, 0);
  }
}
