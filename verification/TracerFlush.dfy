/**
  What a flush of laggards achieves in every run: neither the order of the file nor the clocks of threads
  that left play a part.
*/
module TracerFlush {
  import opened TraceLine
  import opened Access
  import opened TracerStore
  import opened TracerFile
  import opened TracerCore
  import opened TracerLag
  import opened Tracer
  import opened TracerAtomic
  import opened TracerRuns

  /** The table and the flushes in progress are in step with the clocks. */
  ghost predicate FlushInv(cfg: Config, c: Core) {
    && RowsOk(c.store) && PendingOk(c)
    && (forall p :: p in c.store.threads ==> c.store.threads[p].clock >= 0)
    && (forall p :: p in c.pending ==> Covers(cfg, c.store, c.pending[p]))
  }

  // ----- broadcasts -----

  lemma BroadcastRows(cfg: Config, s: Store, p: Tid, n: int, e: Event)
    requires cfg.lag > 0 && RowsOk(s) && p in s.threads && s.threads[p].clock <= n
    requires forall q :: q in s.live ==> s.threads[q].clock <= n
    ensures RowsOk(Broadcast(cfg, s, p, n, e))
  {
    var l := Line(n, s.threads[p].uid, e);
    var t := Touch(cfg, Emit(s, p, l), p, n, true);
    TouchRows(cfg, s, p, l, true);
    TouchClocks(cfg, s, p, l, true);
    hide RowsOk, Touch;
    RowsFlushOthers(cfg, t.store, t.others, n);
    FlushOthersRise(cfg, t.store, t.others, n);
    var f := FlushOthers(cfg, t.store, t.others, n);
    RowsMayRise(f, SetClocks(f, s.live, n));
  }

  /** The broadcasting thread and every live thread end at its time. */
  lemma BroadcastClocks(cfg: Config, s: Store, p: Tid, n: int, e: Event)
    requires cfg.lag > 0 && s.live <= s.threads.Keys && p in s.threads && s.threads[p].clock <= n
    requires forall q :: q in s.live ==> s.threads[q].clock <= n
    ensures var t := Broadcast(cfg, s, p, n, e);
            && Evolves(s, t) && (forall q :: q in t.live ==> t.threads[q].clock == n)
            && t.threads[p].clock >= n
  {
    var l := Line(n, s.threads[p].uid, e);
    var t := Touch(cfg, Emit(s, p, l), p, n, true);
    BroadcastRises(cfg, s, p, n, e);
    TouchClocks(cfg, s, p, l, true);
    FlushOthersRise(cfg, t.store, t.others, n);
  }

  /** Nobody lags behind a flush decided before a broadcast. */
  lemma BroadcastCovers(cfg: Config, s: Store, n: int, d: Pending)
    requires cfg.lag > 0 && d.time <= n
    requires forall q :: q in s.live && q in s.threads ==> s.threads[q].clock >= n
    ensures Covers(cfg, s, d)
  {
  }

  lemma AfterBroadcast(cfg: Config, c: Core, t: Store, n: int)
    requires cfg.lag > 0 && FlushInv(cfg, c) && RowsOk(t)
    requires forall p :: p in c.pending ==> p in t.live && c.pending[p].time <= n
    requires forall q :: q in t.live && q in t.threads ==> t.threads[q].clock >= n
    requires forall q :: q in t.threads ==> t.threads[q].clock >= 0
    ensures FlushInv(cfg, c.(store := t))
  {
    forall p | p in c.pending ensures Covers(cfg, t, c.pending[p]) {
      BroadcastCovers(cfg, t, n, c.pending[p]);
    }
  }

  lemma AnnounceFlush(cfg: Config, c: Core, p: Tid, e: Event)
    requires cfg.lag > 0 && FlushInv(cfg, c) && CoreEnabled(cfg, c, Announce(p, e))
    ensures FlushInv(cfg, CoreNext(cfg, c, Announce(p, e)))
  {
    var s, n := c.store, NextTime(c.store);
    BroadcastRows(cfg, s, p, n, e);
    BroadcastClocks(cfg, s, p, n, e);
    AfterBroadcast(cfg, c, Broadcast(cfg, s, p, n, e), n);
  }

  lemma JoinFlush(cfg: Config, c: Core, p: Tid, uid: int)
    requires cfg.lag > 0 && FlushInv(cfg, c) && CoreEnabled(cfg, c, Join(p, uid))
    ensures FlushInv(cfg, CoreNext(cfg, c, Join(p, uid)))
  {
    var s, n := c.store, NextTime(c.store);
    var b := Named(s, p, s.threads[p].(uid := uid));
    RowsMayRise(s, b);
    BroadcastRows(cfg, b, p, n, Register);
    BroadcastClocks(cfg, b, p, n, Register);
    AfterBroadcast(cfg, c, Broadcast(cfg, b, p, n, Register), n);
  }

  lemma BornRows(s: Store, p: Tid, uid: int)
    requires RowsOk(s) && p !in s.threads
    ensures RowsOk(Named(s, p, ThreadData(uid, 0, [])))
  {
  }

  /** A traced start brings every thread to its time. */
  lemma StartRows(cfg: Config, s: Store, p: Tid, uid: int, n: int)
    requires cfg.lag > 0 && !cfg.registerThreads && RowsOk(s) && p !in s.threads && n >= 0
    requires forall q :: q in s.live ==> s.threads[q].clock <= n
    requires forall q :: q in s.threads ==> s.threads[q].clock >= 0
    ensures var t := StartThread(cfg, s, p, uid, n);
            && RowsOk(t) && t.live == s.live + {p} && t.threads.Keys == s.threads.Keys + {p}
            && (forall q :: q in t.live && q in t.threads ==> t.threads[q].clock >= n)
            && (forall q :: q in t.threads ==> t.threads[q].clock >= 0)
  {
    var b := Named(s, p, ThreadData(uid, 0, []));
    BornRows(s, p, uid);
    BroadcastRows(cfg, b, p, n, Register);
    BroadcastClocks(cfg, b, p, n, Register);
    hide Broadcast, RowsOk, Insert;
    RowsAdmit(Broadcast(cfg, b, p, n, Register), StartThread(cfg, s, p, uid, n), p);
  }

  lemma BeginTracedFlush(cfg: Config, c: Core, p: Tid, uid: int)
    requires cfg.lag > 0 && FlushInv(cfg, c) && CoreEnabled(cfg, c, Begin(p, uid)) && !cfg.registerThreads
    ensures FlushInv(cfg, CoreNext(cfg, c, Begin(p, uid)))
  {
    hide FinishThread, StartThread, RegisterThread, Broadcast, Touch, FlushOther, RowsOk, Covers;
    StartRows(cfg, c.store, p, uid, NextTime(c.store));
    AfterBroadcast(cfg, c, StartThread(cfg, c.store, p, uid, NextTime(c.store)), NextTime(c.store));
  }

  lemma BeginSilentFlush(cfg: Config, c: Core, p: Tid, uid: int)
    requires cfg.lag > 0 && FlushInv(cfg, c) && CoreEnabled(cfg, c, Begin(p, uid)) && cfg.registerThreads
    ensures FlushInv(cfg, CoreNext(cfg, c, Begin(p, uid)))
  {
    var s, d := c.store, CoreNext(cfg, c, Begin(p, uid));
    var b := Named(s, p, ThreadData(uid, 0, []));
    BornRows(s, p, uid);
    RowsAdmit(b, d.store, p);
    forall q | q in d.pending ensures Covers(cfg, d.store, d.pending[q]) {
      CoversKept(cfg, s, d.store, c.pending[q].time, c.pending[q]);
    }
  }

  /** A registered thread's end leaves the rest at its time. */
  lemma FinishRows(cfg: Config, s: Store, p: Tid, n: int)
    requires cfg.lag > 0 && RowsOk(s) && p in s.live && s.threads[p].uid >= 0 && n >= 0
    requires forall q :: q in s.live ==> s.threads[q].clock <= n
    requires forall q :: q in s.threads ==> s.threads[q].clock >= 0
    ensures var t := FinishThread(cfg, s, p, n);
            && RowsOk(t) && t.live == s.live - {p} && t.threads.Keys == s.threads.Keys
            && (forall q :: q in t.live && q in t.threads ==> t.threads[q].clock >= n)
            && (forall q :: q in t.threads ==> t.threads[q].clock >= 0)
  {
    BroadcastRows(cfg, s, p, n, Finish);
    BroadcastClocks(cfg, s, p, n, Finish);
    hide Broadcast, RowsOk, Erase;
    EndRows(Broadcast(cfg, s, p, n, Finish), FinishThread(cfg, s, p, n), p);
  }

  lemma EndTracedFlush(cfg: Config, c: Core, p: Tid)
    requires cfg.lag > 0 && FlushInv(cfg, c) && CoreEnabled(cfg, c, End(p)) && c.store.threads[p].uid >= 0
    ensures FlushInv(cfg, CoreNext(cfg, c, End(p)))
  {
    hide FinishThread, StartThread, RegisterThread, Broadcast, Touch, FlushOther, RowsOk, Covers;
    FinishRows(cfg, c.store, p, NextTime(c.store));
    AfterBroadcast(cfg, c, FinishThread(cfg, c.store, p, NextTime(c.store)), NextTime(c.store));
  }

  /** What is left of a thread's end: it leaves, and its row with it if its buffer was not empty. */
  lemma EndRows(s: Store, t: Store, p: Tid)
    requires RowsOk(s) && t.live == s.live - {p} && t.threads.Keys == s.threads.Keys
    requires forall q :: q in s.threads ==> t.threads[q].clock == s.threads[q].clock
    requires t.lastFlushed == s.lastFlushed || t.lastFlushed == Erase(s.lastFlushed, p)
    ensures RowsOk(t)
  {
    EraseRows(s.lastFlushed, p);
    forall u | u in t.live ensures HasRow(t.lastFlushed, u) {
      var e :| e in s.lastFlushed && e.tid == u;
      assert e in t.lastFlushed;
    }
  }

  /** Threads may leave: what a flush in progress covers stays covered. */
  lemma LeaveKeeps(cfg: Config, c: Core, t: Store, p: Tid)
    requires cfg.lag > 0 && FlushInv(cfg, c) && p !in c.pending && RowsOk(t)
    requires t.live == c.store.live - {p} && t.threads.Keys == c.store.threads.Keys
    requires forall q :: q in t.threads ==>
               t.threads[q].clock == c.store.threads[q].clock && t.threads[q].uid == c.store.threads[q].uid
    ensures FlushInv(cfg, c.(store := t))
  {
    hide RowsOk;
    forall q | q in c.pending ensures Covers(cfg, t, c.pending[q]) {
      CoversKept(cfg, c.store, t, c.pending[q].time, c.pending[q]);
    }
  }

  lemma EndSilentFlush(cfg: Config, c: Core, p: Tid)
    requires cfg.lag > 0 && FlushInv(cfg, c) && CoreEnabled(cfg, c, End(p)) && c.store.threads[p].uid < 0
    ensures FlushInv(cfg, CoreNext(cfg, c, End(p)))
  {
    hide StartThread, RegisterThread, Broadcast, Touch, FlushOther, Covers, Erase;
    var t := FinishThread(cfg, c.store, p, NextTime(c.store));
    EndRows(c.store, t, p);
    hide RowsOk;
    LeaveKeeps(cfg, c, t, p);
  }

  // ----- steps of one thread -----

  /** A touch by `p` that may start a flush of `t.others`. */
  lemma TouchedKeeps(cfg: Config, c: Core, t: Touched, p: Tid, time: int)
    requires cfg.lag > 0 && FlushInv(cfg, c) && p in c.store.live && p in c.store.threads && p !in c.pending
    requires RowsOk(t.store) && t.store.live == c.store.live && t.store.threads.Keys == c.store.threads.Keys
    requires c.store.threads[p].clock <= time
    requires forall q :: q in c.store.threads ==>
               && t.store.threads[q].uid == c.store.threads[q].uid
               && t.store.threads[q].clock == if q == p then time else c.store.threads[q].clock
    requires t.others != [] ==> Covers(cfg, t.store, Pending(time, t.others))
    ensures FlushInv(cfg, AfterTouch(c, t, p, time))
  {
    hide RowsOk;
    forall q | q in c.pending ensures Covers(cfg, t.store, c.pending[q]) {
      CoversKept(cfg, c.store, t.store, c.pending[q].time, c.pending[q]);
    }
    hide Covers;
  }

  lemma LocalFlush(cfg: Config, c: Core, p: Tid, time: int, e: Event)
    requires cfg.lag > 0 && FlushInv(cfg, c) && CoreEnabled(cfg, c, Local(p, time, e))
    ensures FlushInv(cfg, CoreNext(cfg, c, Local(p, time, e)))
  {
    var s, l := c.store, Line(time, c.store.threads[p].uid, e);
    TouchRows(cfg, s, p, l, false);
    TouchCovers(cfg, s, p, l, false);
    TouchClocks(cfg, s, p, l, false);
    hide Touch, RowsOk, Covers, FlushInv;
    TouchedKeeps(cfg, c, Touch(cfg, Emit(s, p, l), p, time, false), p, time);
  }

  lemma FlushOneFlush(cfg: Config, c: Core, p: Tid)
    requires cfg.lag > 0 && FlushInv(cfg, c) && CoreEnabled(cfg, c, FlushOne(p))
    ensures FlushInv(cfg, CoreNext(cfg, c, FlushOne(p)))
  {
    hide FlushOther, RowsOk, Covers, CloseTo, Lags;
    var s, todo := c.store, c.pending[p];
    assert s.live <= s.threads.Keys by {
      RowsOfLive(s);
    }
    RowsFlushOther(cfg, s, todo.others[0], todo.time);
    FlushOtherClocks(cfg, s, todo.others[0], todo.time);
    FlushOneCovers(cfg, s, todo);
    FlushedKeeps(cfg, c, FlushOther(cfg, s, todo.others[0], todo.time), p);
  }

  lemma RowsOfLive(s: Store)
    requires RowsOk(s)
    ensures s.live <= s.threads.Keys
  {
  }

  /** One laggard flushed: the rest of the flush, and the other flushes, cover what is left. */
  lemma FlushedKeeps(cfg: Config, c: Core, t: Store, p: Tid)
    requires cfg.lag > 0 && FlushInv(cfg, c) && p in c.pending && c.pending[p].others != [] && RowsOk(t)
    requires t.live == c.store.live && t.threads.Keys == c.store.threads.Keys
    requires forall q :: q in c.store.threads ==>
               t.threads[q].uid == c.store.threads[q].uid && c.store.threads[q].clock <= t.threads[q].clock
    requires Covers(cfg, t, c.pending[p].(others := c.pending[p].others[1..]))
    ensures FlushInv(cfg, Core(t, c.pending[p := c.pending[p].(others := c.pending[p].others[1..])], c.owner))
  {
    hide RowsOk, Covers;
    var d := Core(t, c.pending[p := c.pending[p].(others := c.pending[p].others[1..])], c.owner);
    forall q | q in d.pending ensures Covers(cfg, d.store, d.pending[q]) {
      if q != p {
        CoversKept(cfg, c.store, t, c.pending[q].time, c.pending[q]);
      }
    }
  }

  /** No step of any run breaks it, whatever the clocks are. */
  lemma StepKeepsFlush(cfg: Config, c: Core, l: CoreLabel)
    requires cfg.lag > 0 && FlushInv(cfg, c) && CoreEnabled(cfg, c, l)
    ensures FlushInv(cfg, CoreNext(cfg, c, l))
  {
    match l
    case Local(p, time, e) => LocalFlush(cfg, c, p, time, e);
    case FlushEnter(p) =>
    case FlushOne(p) => FlushOneFlush(cfg, c, p);
    case FlushLeave(p) =>
    case Announce(p, e) => AnnounceFlush(cfg, c, p, e);
    case Join(p, uid) => JoinFlush(cfg, c, p, uid);
    case Begin(p, uid) =>
      if cfg.registerThreads {
        BeginSilentFlush(cfg, c, p, uid);
      } else {
        BeginTracedFlush(cfg, c, p, uid);
      }
    case End(p) =>
      if c.store.threads[p].uid >= 0 {
        EndTracedFlush(cfg, c, p);
      } else {
        EndSilentFlush(cfg, c, p);
      }
  }

  lemma {:induction false} RunKeepsFlush(cfg: Config, s: State, run: seq<Label>)
    requires cfg.lag > 0 && FlushInv(cfg, s.core) && ValidRun(cfg, s, run)
    ensures FlushInv(cfg, Final(cfg, s, run).core)
    decreases |run|
  {
    if run != [] {
      StepMovesCore(cfg, s, run[0]);
      var c := CoreStep(cfg, s, run[0]);
      if c.Some? {
        StepKeepsFlush(cfg, s.core, c.value);
      }
      hide FlushInv, Enabled, Next;
      RunKeepsFlush(cfg, Next(cfg, s, run[0]), run[1..]);
    }
  }

  /**
    In every state that any run reaches, a thread about to leave `attempt_flush_others` has no live
    registered thread behind it by three quarters of the allowed difference.
  */
  lemma FlushLeavesNoLaggard(cfg: Config, m: Memory, run: seq<Label>, p: Tid, u: Tid)
    requires Sane(cfg) && ValidRun(cfg, Initial(cfg, m), run)
    requires var c := Final(cfg, Initial(cfg, m), run).core;
             && CoreEnabled(cfg, c, FlushLeave(p))
             && u in c.store.live && u in c.store.threads && c.store.threads[u].uid >= 0
    ensures var c := Final(cfg, Initial(cfg, m), run).core;
            4 * (c.pending[p].time - c.store.threads[u].clock) < 3 * cfg.lag
  {
    var c := Final(cfg, Initial(cfg, m), run).core;
    RunKeepsFlush(cfg, Initial(cfg, m), run);
    assert CloseTo(cfg, c.store, u, c.pending[p].time);
  }
}
