/**
  The time of every event is the least that the rules allow: above the thread's clock, above the stamps of the
  locks it holds, and, under all thread locks, above every live clock.
*/
module TracerStamps {
  import opened Options
  import opened TraceLine
  import opened Access
  import opened LockArithmetic
  import opened Replay
  import opened TracerStore
  import opened TracerFile
  import opened TracerCore
  import opened TracerLines
  import opened Tracer
  import opened TracerAtomic
  import opened TracerFlush
  import opened TracerMergeable
  import opened TracerTimes

  // ----- the highest stamp seen is the stamp of a lock that is held -----

  ghost predicate Attained(s: State, p: Tid)
    requires p in s.control
  {
    var seen := SeenBy(s.control[p].stage);
    seen == 0 || exists i :: i in s.control[p].held && i < |s.stamps| && s.stamps[i] == seen
  }

  ghost predicate SeenExact(s: State) {
    forall p :: p in s.control ==> Attained(s, p)
  }

  /** A thread that a step leaves alone, locks included. */
  lemma AttainedStays(s: State, t: State, p: Tid)
    requires p in s.control && Attained(s, p) && p in t.control
    requires t.control[p].held == s.control[p].held && |t.stamps| == |s.stamps|
    requires SeenBy(t.control[p].stage) == SeenBy(s.control[p].stage) || SeenBy(t.control[p].stage) == 0
    requires forall i :: i in s.control[p].held && i < |s.stamps| ==> t.stamps[i] == s.stamps[i]
    ensures Attained(t, p)
  {
    hide SeenBy;
    var seen := SeenBy(t.control[p].stage);
    if seen != 0 {
      var i :| i in s.control[p].held && i < |s.stamps| && s.stamps[i] == seen;
      assert t.stamps[i] == seen;
    }
  }

  lemma SameStamps(s: State, t: State)
    requires SeenExact(s) && t.stamps == s.stamps
    requires forall p :: p in t.control ==>
               if p in s.control then
                 && t.control[p].held == s.control[p].held
                 && (SeenBy(t.control[p].stage) == SeenBy(s.control[p].stage) || SeenBy(t.control[p].stage) == 0)
               else SeenBy(t.control[p].stage) == 0
    ensures SeenExact(t)
  {
    hide SeenBy;
    forall p | p in t.control ensures Attained(t, p) {
      if p in s.control {
        assert Attained(s, p);
        hide Attained;
        AttainedStays(s, t, p);
      }
    }
  }

  lemma LockSeen(cfg: Config, s: State, p: Tid)
    requires SeenExact(s) && Enabled(cfg, s, Lock(p))
    ensures SeenExact(Next(cfg, s, Lock(p)))
  {
    var t, i := Next(cfg, s, Lock(p)), s.control[p].stage.todo[0];
    forall q | q in t.control ensures Attained(t, q) {
      assert Attained(s, q);
      if q == p {
        assert i in t.control[p].held;
        var seen := SeenBy(t.control[p].stage);
        if seen != 0 && seen != s.stamps[i] {
          var j :| j in s.control[p].held && j < |s.stamps| && s.stamps[j] == seen;
          assert j in t.control[p].held;
        }
      }
    }
  }

  /** The lock that a thread gives back is on nobody else's list. */
  lemma UnlockSeen(cfg: Config, s: State, p: Tid)
    requires AtomicInv(cfg, s) && SeenExact(s) && Enabled(cfg, s, Unlock(p))
    ensures SeenExact(Next(cfg, s, Unlock(p)))
  {
    var t, k := Next(cfg, s, Unlock(p)), s.control[p].held[0];
    hide Locks, StageOk, SeenOk, ReadyOk, ExecutedOk;
    assert Owns(s, p) && k in s.control[p].held;
    forall q | q in t.control ensures Attained(t, q) {
      assert Attained(s, q) && Owns(s, q);
      if q != p {
        AttainedStays(s, t, q);
      }
    }
  }

  lemma StepKeepsSeen(cfg: Config, s: State, l: Label)
    requires AtomicInv(cfg, s) && SeenExact(s) && Enabled(cfg, s, l)
    ensures SeenExact(Next(cfg, s, l))
  {
    hide AtomicInv, CoreNext, CoreEnabled, Attained, SeenExact, Locks;
    match l
    case Other(c) =>
      OtherShape(cfg, s, c);
      SameStamps(s, Next(cfg, s, l));
    case Lock(p) => LockSeen(cfg, s, p);
    case Unlock(p) => UnlockSeen(cfg, s, p);
    case Header(p, a) => HeaderSeen(cfg, s, p, a);
    case _ => SameStamps(s, Next(cfg, s, l));
  }

  lemma HeaderSeen(cfg: Config, s: State, p: Tid, a: Access)
    requires SeenExact(s) && Enabled(cfg, s, Header(p, a))
    ensures SeenExact(Next(cfg, s, Header(p, a)))
  {
    hide Attained;
    var t := Next(cfg, s, Header(p, a));
    assert t.control[p].held == s.control[p].held;
    SameStamps(s, t);
  }

  lemma {:induction false} RunKeepsSeen(cfg: Config, s: State, run: seq<Label>)
    requires AtomicInv(cfg, s) && SeenExact(s) && ValidRun(cfg, s, run)
    ensures SeenExact(Final(cfg, s, run)) && AtomicInv(cfg, Final(cfg, s, run))
    decreases |run|
  {
    if run != [] {
      StepIsAtomic(cfg, s, run[0]);
      StepKeepsSeen(cfg, s, run[0]);
      hide AtomicInv, SeenExact, Enabled, Next;
      RunKeepsSeen(cfg, Next(cfg, s, run[0]), run[1..]);
    }
  }

  // ----- memory accesses -----

  /** `t` is the first tick above the clock of `p` and the stamps of all locks on the list. */
  ghost predicate FirstTick(s: State, p: Tid, list: seq<nat>, t: int)
    requires p in s.core.store.threads
  {
    && s.core.store.threads[p].clock < t
    && (forall i :: i in list ==> i < |s.stamps| && s.stamps[i] < t)
    && (s.core.store.threads[p].clock == t - 1 || exists i :: i in list && i < |s.stamps| && s.stamps[i] == t - 1)
  }

  /** The access of `p` that is ready to be stamped, and whether it is a compare-and-swap that has failed. */
  ghost predicate AtFooter(cfg: Config, s: State, p: Tid) {
    && cfg.blockSize >= 1 && cfg.numLocks >= 1 && p in s.control && p in s.core.store.threads
    && (s.control[p].stage.Locking? || (s.control[p].stage.Executed? && s.control[p].stage.at < |s.log|))
    && Legal(s.control[p].stage.access)
  }

  ghost predicate HasFailed(cfg: Config, s: State, p: Tid)
    requires AtFooter(cfg, s, p)
  {
    s.control[p].stage.Executed? && s.control[p].stage.access.op(s.log[s.control[p].stage.at].got).None?
  }

  lemma FooterHolds(cfg: Config, s: State, p: Tid)
    requires AtomicInv(cfg, s) && Enabled(cfg, s, Footer(p))
    ensures AtFooter(cfg, s, p)
    ensures s.control[p].held == LockList(s.control[p].stage.access, cfg.blockSize, cfg.numLocks)
    ensures forall i :: i in s.control[p].held ==> i < |s.stamps| && s.stamps[i] <= SeenBy(s.control[p].stage)
  {
    hide Reproduces, RunFrom, Ordered, LogOk, LockList;
    ThreadIsOk(cfg, s, p);
    var st := s.control[p].stage;
    if st.Locking? {
      assert s.control[p].held + [] == s.control[p].held;
    }
    assert Owns(s, p);
  }

  lemma FooterFirstTick(cfg: Config, s: State, p: Tid)
    requires AtomicInv(cfg, s) && SeenExact(s) && TimesOk(s) && Enabled(cfg, s, Footer(p)) && AtFooter(cfg, s, p)
    ensures FirstTick(s, p, LockList(s.control[p].stage.access, cfg.blockSize, cfg.numLocks), FooterLabel(s, p).time)
  {
    hide AtomicInv, LockList, Reached, NoGaps, CoreNext, CoreEnabled;
    FooterHolds(cfg, s, p);
    assert Attained(s, p);
  }

  /** The line of the access, at the time that its thread's clock has afterwards. */
  ghost predicate ShowsAccess(cfg: Config, s: State, t: Store, p: Tid)
    requires AtFooter(cfg, s, p)
  {
    var a := s.control[p].stage.access;
    && p in t.threads
    && t.emitted == s.core.store.emitted
                    + [Line(t.threads[p].clock, s.core.store.threads[p].uid,
                            Memory(a.read1, a.read2, if HasFailed(cfg, s, p) then None else a.write))]
  }

  lemma FooterLine(cfg: Config, s: State, p: Tid)
    requires Enabled(cfg, s, Footer(p)) && AtFooter(cfg, s, p)
    ensures var t := Next(cfg, s, Footer(p)).core.store;
            ShowsAccess(cfg, s, t, p) && t.threads[p].clock == FooterLabel(s, p).time
  {
    hide AddsSyncs, FlushOther, Broadcast;
    var f := FooterLabel(s, p);
    StepLines(cfg, s.core, f);
    TouchClocks(cfg, s.core.store, p, Line(f.time, s.core.store.threads[p].uid, f.event), false);
    hide Touch;
  }

  /**
    When a memory access is stamped, one line is emitted. It shows the operands of the access, its write unless
    it is a compare-and-swap that has failed; and its time is the first above the thread's clock and the stamps
    of all locks of the bytes it touches.
  */
  lemma AccessStamp(cfg: Config, m: Memory, run: seq<Label>, p: Tid)
    requires Sane(cfg) && ValidRun(cfg, Initial(cfg, m), run)
    requires Enabled(cfg, Final(cfg, Initial(cfg, m), run), Footer(p))
    ensures var s := Final(cfg, Initial(cfg, m), run);
            var t := Next(cfg, s, Footer(p)).core.store;
            && AtFooter(cfg, s, p) && ShowsAccess(cfg, s, t, p)
            && FirstTick(s, p, LockList(s.control[p].stage.access, cfg.blockSize, cfg.numLocks), t.threads[p].clock)
  {
    hide AtomicInv, SeenExact, TimesOk, Initial, Final, Next, Enabled, CoreNext, CoreEnabled, LockList, FirstTick,
         ValidRun, AtFooter, ShowsAccess;
    InitialInv(cfg, m);
    InitialSeen(cfg, m);
    RunKeepsSeen(cfg, Initial(cfg, m), run);
    RunKeepsTimes(cfg, Initial(cfg, m), run);
    var s := Final(cfg, Initial(cfg, m), run);
    FooterHolds(cfg, s, p);
    FooterFirstTick(cfg, s, p);
    FooterLine(cfg, s, p);
  }

  lemma InitialSeen(cfg: Config, m: Memory)
    requires Sane(cfg)
    ensures SeenExact(Initial(cfg, m)) && TimesOk(Initial(cfg, m))
  {
  }

  // ----- calls, returns and context changes -----

  /**
    Exactly when a registered thread traces a call, a return or a context change, and how: the line is stamped
    one tick above the thread's clock.
  */
  lemma CallStamp(cfg: Config, s: State, p: Tid, time: int, e: Event)
    requires Sane(cfg)
    ensures Enabled(cfg, s, Other(Local(p, time, e))) <==>
            && p in s.control && s.control[p] == Control(Between, []) && s.core.store.live <= s.core.store.threads.Keys
            && p in s.core.store.live && p !in s.core.pending && s.core.store.threads[p].uid >= 0
            && (e.Call? || e.Return? || e.ContextChange?) && time == s.core.store.threads[p].clock + 1
    ensures Enabled(cfg, s, Other(Local(p, time, e))) ==>
              var t := Next(cfg, s, Other(Local(p, time, e))).core.store;
              && t.emitted == s.core.store.emitted + [Line(time, s.core.store.threads[p].uid, e)]
              && p in t.threads && t.threads[p].clock == time
  {
    if Enabled(cfg, s, Other(Local(p, time, e))) {
      StepLines(cfg, s.core, Local(p, time, e));
      TouchClocks(cfg, s.core.store, p, Line(time, s.core.store.threads[p].uid, e), false);
      hide Touch, AddsSyncs;
    }
  }

  // ----- events under all thread locks -----

  /** `n` is the first tick above all live clocks. */
  ghost predicate NextTick(s: Store, n: int) {
    && s.live <= s.threads.Keys && n > 0 && (forall q :: q in s.live ==> s.threads[q].clock < n)
    && (n == 1 || exists q :: q in s.live && s.threads[q].clock == n - 1)
  }

  /**
    `s` becomes `t` by an event under all thread locks at time `n`: its line is the next one, at once in the file
    behind what was in the thread's buffer; then come only lines of threads it flushes, at its time. `n` is the
    first tick above all live clocks, and every live clock moves to it.
  */
  ghost predicate Globally(s: Store, t: Store, buffer: seq<Line>, l: Line) {
    && NextTick(s, l.time) && t.live <= t.threads.Keys
    && AddsSyncs(s.emitted + [l], t.emitted, l.time) && s.file + buffer + [l] <= t.file
    && (forall q :: q in t.live ==> t.threads[q].clock == l.time)
  }

  lemma MaxAttained(s: Store)
    requires s.live <= s.threads.Keys
    ensures NextTick(s, NextTime(s))
  {
  }

  lemma BroadcastGlobally(cfg: Config, s: Store, p: Tid, n: int, e: Event)
    requires cfg.lag > 0 && NextTick(s, n) && p in s.threads && s.threads[p].clock < n
    ensures var t := Broadcast(cfg, s, p, n, e);
            && Globally(s, t, s.threads[p].buffer, Line(n, s.threads[p].uid, e))
            && t.threads.Keys == s.threads.Keys && t.live == s.live && t.threads[p].clock == n
  {
    hide Broadcast, AddsSyncs;
    BroadcastLines(cfg, s, p, n, e);
    BroadcastExtends(cfg, s, p, n, e);
    BroadcastClocks(cfg, s, p, n, e);
    BroadcastFrom(cfg, s, p, n, e);
  }

  /** The event, its thread's id, and what its thread had buffered. */
  ghost function GlobalEvent(s: Store, c: CoreLabel): (int, Event, seq<Line>)
    requires c.Announce? || c.Join? || c.Begin? || c.End?
    requires c.Begin? || c.p in s.threads
  {
    match c
    case Announce(p, e) => (s.threads[p].uid, e, s.threads[p].buffer)
    case Join(p, uid) => (uid, Register, s.threads[p].buffer)
    case Begin(_, uid) => (uid, Register, [])
    case End(p) => (s.threads[p].uid, Finish, s.threads[p].buffer)
  }

  /** A thread that takes its id, or is only now there, changes no clock. */
  lemma NamedTick(s: Store, p: Tid, uid: int, n: int)
    requires NextTick(s, n)
    ensures p in s.threads ==> NextTick(Named(s, p, s.threads[p].(uid := uid)), n)
    ensures p !in s.threads ==> NextTick(Named(s, p, ThreadData(uid, 0, [])), n)
  {
    var b := Named(s, p, if p in s.threads then s.threads[p].(uid := uid) else ThreadData(uid, 0, []));
    if q :| q in s.live && s.threads[q].clock == n - 1 {
      assert b.threads[q].clock == n - 1;
    }
  }

  /** The same seen from the store in which the thread has not yet its id. */
  lemma SeenBefore(s: Store, b: Store, t: Store, buffer: seq<Line>, l: Line)
    requires Globally(b, t, buffer, l) && NextTick(s, l.time) && s.emitted == b.emitted && s.file == b.file
    ensures Globally(s, t, buffer, l)
  {
    hide AddsSyncs;
  }

  /** What follows an event: the thread that started is live, the one that ended is not. */
  lemma SeenAfter(s: Store, b: Store, t: Store, buffer: seq<Line>, l: Line)
    requires Globally(s, b, buffer, l) && t.emitted == b.emitted && b.file <= t.file && t.live <= t.threads.Keys
    requires forall q :: q in t.live ==>
               (q in b.live && t.threads[q].clock == b.threads[q].clock) || t.threads[q].clock == l.time
    ensures Globally(s, t, buffer, l)
  {
    hide AddsSyncs;
  }

  lemma EndGlobally(cfg: Config, s: Store, p: Tid, n: int)
    requires cfg.lag > 0 && NextTick(s, n) && p in s.live && s.threads[p].uid >= 0
    ensures Globally(s, FinishThread(cfg, s, p, n), s.threads[p].buffer, Line(n, s.threads[p].uid, Finish))
  {
    hide Broadcast, AddsSyncs, Erase;
    BroadcastGlobally(cfg, s, p, n, Finish);
    SeenAfter(s, Broadcast(cfg, s, p, n, Finish), FinishThread(cfg, s, p, n), s.threads[p].buffer,
              Line(n, s.threads[p].uid, Finish));
  }

  lemma BeginGlobally(cfg: Config, s: Store, p: Tid, uid: int, n: int)
    requires cfg.lag > 0 && NextTick(s, n) && p !in s.threads && !cfg.registerThreads
    ensures Globally(s, StartThread(cfg, s, p, uid, n), [], Line(n, uid, Register))
  {
    hide Broadcast, AddsSyncs, Insert;
    var b, l := Named(s, p, ThreadData(uid, 0, [])), Line(n, uid, Register);
    NamedTick(s, p, uid, n);
    BroadcastGlobally(cfg, b, p, n, Register);
    SeenBefore(s, b, Broadcast(cfg, b, p, n, Register), [], l);
    SeenAfter(s, Broadcast(cfg, b, p, n, Register), StartThread(cfg, s, p, uid, n), [], l);
  }

  lemma JoinGlobally(cfg: Config, s: Store, p: Tid, uid: int, n: int)
    requires cfg.lag > 0 && NextTick(s, n) && p in s.live
    ensures Globally(s, RegisterThread(cfg, s, p, uid, n), s.threads[p].buffer, Line(n, uid, Register))
  {
    hide Broadcast, AddsSyncs;
    var b := Named(s, p, s.threads[p].(uid := uid));
    NamedTick(s, p, uid, n);
    BroadcastGlobally(cfg, b, p, n, Register);
    SeenBefore(s, b, Broadcast(cfg, b, p, n, Register), s.threads[p].buffer, Line(n, uid, Register));
  }

  /** Every event under all thread locks: ROI changes, registration, start and end, calls of unregistered threads. */
  lemma GlobalStamp(cfg: Config, c: Core, l: CoreLabel)
    requires cfg.lag > 0 && CoreEnabled(cfg, c, l) && IsBroadcast(cfg, c, l)
    ensures var (uid, e, buffer) := GlobalEvent(c.store, l);
            Globally(c.store, CoreNext(cfg, c, l).store, buffer, Line(NextTime(c.store), uid, e))
  {
    hide Broadcast, Globally, RegisterThread, StartThread, FinishThread, Touch, FlushOther;
    var s, n := c.store, NextTime(c.store);
    MaxAttained(s);
    match l
    case Announce(p, e) => BroadcastGlobally(cfg, s, p, n, e);
    case Join(p, uid) => JoinGlobally(cfg, s, p, uid, n);
    case Begin(p, uid) => BeginGlobally(cfg, s, p, uid, n);
    case End(p) => EndGlobally(cfg, s, p, n);
    case _ =>
  }
}
