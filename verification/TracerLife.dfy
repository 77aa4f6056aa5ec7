/** How threads come and go: what starting, registering and ending leave behind, and what a flush can rely on. */
module TracerLife {
  import opened Options
  import opened TraceLine
  import opened Access
  import opened TracerStore
  import opened TracerBroadcast
  import opened TracerCore
  import opened TracerLag
  import opened TracerEmission
  import opened TracerBuffers
  import opened TracerSync
  import opened Tracer
  import opened TracerRuns

  /** `p` has been traced up to `time`, all of it is in the file, and that is what its only row says. */
  ghost predicate UpToDate(t: Store, p: Tid, uid: int, time: int) {
    && p in t.threads && t.threads[p] == ThreadData(uid, time, [])
    && (forall e :: e in t.lastFlushed && e.tid == p <==> e == Flushed(time, p))
  }

  lemma TouchedUpToDate(cfg: Config, s: Store, p: Tid, l: Line)
    requires p in s.threads
    ensures UpToDate(OwnLine(cfg, s, p, l), p, s.threads[p].uid, l.time)
  {
    hide Insert, Erase, Recheck;
    OwnLineFields(cfg, s, p, l);
    ReplaceRow(s.lastFlushed, p, l.time);
  }

  lemma BroadcastUpToDate(cfg: Config, s: Store, p: Tid, n: int, e: Event)
    requires cfg.lag > 0 && SilentEmpty(s) && s.live <= s.threads.Keys && p in s.threads
    ensures var t := Broadcast(cfg, s, p, n, e);
            UpToDate(t, p, s.threads[p].uid, n) && t.live == s.live && t.threads.Keys == s.threads.Keys
  {
    var l := Line(n, s.threads[p].uid, e);
    OwnLineFields(cfg, s, p, l);
    TouchedUpToDate(cfg, s, p, l);
    var w := Touch(cfg, Emit(s, p, l), p, n, true);
    assert w.store == OwnLine(cfg, s, p, l);
    hide Touch, OwnLine, FlushOthers;
    FlushAllWrites(cfg, w.store, w.others, n);
    assert SetClocks(FlushOthers(cfg, w.store, w.others, n), s.live, n) == Broadcast(cfg, s, p, n, e);
  }

  // ----- start, registration, end -----

  /** A new thread has no row yet, so its first row is that of its `tr` line, or one at time 0. */
  lemma StartLeaves(cfg: Config, s: Store, p: Tid, uid: int, n: int)
    requires cfg.lag > 0 && RowsOk(s) && SilentEmpty(s) && p !in s.threads
    ensures var t := StartThread(cfg, s, p, uid, n);
            && t.live == s.live + {p} && t.threads.Keys == s.threads.Keys + {p}
            && UpToDate(t, p, uid, if cfg.registerThreads then 0 else n)
            && (cfg.registerThreads ==> t.file == s.file && t.emitted == s.emitted && t.cache == s.cache
                                        && forall q :: q in s.threads ==> t.threads[q] == s.threads[q])
  {
    hide Broadcast, InsertSorted;
    var b := Named(s, p, ThreadData(uid, 0, []));
    if cfg.registerThreads {
      InsertRows(s.lastFlushed, Flushed(0, p));
      assert !HasTid(s.lastFlushed, p);
    } else {
      BroadcastUpToDate(cfg, b, p, n, Register);
      var w := Broadcast(cfg, b, p, n, Register);
      assert Flushed(n, p) in w.lastFlushed;
      assert HasTid(w.lastFlushed, p);
    }
  }

  lemma JoinLeaves(cfg: Config, s: Store, p: Tid, uid: int, n: int)
    requires cfg.lag > 0 && RowsOk(s) && SilentEmpty(s) && p in s.live && uid >= 0
    ensures var t := RegisterThread(cfg, s, p, uid, n);
            UpToDate(t, p, uid, n) && t.live == s.live && t.threads.Keys == s.threads.Keys
  {
    hide Broadcast;
    BroadcastUpToDate(cfg, Named(s, p, s.threads[p].(uid := uid)), p, n, Register);
  }

  /** The row of a thread that ends stays in the table. */
  lemma EndLeaves(cfg: Config, s: Store, p: Tid, n: int)
    requires cfg.lag > 0 && RowsOk(s) && SilentEmpty(s) && p in s.live
    ensures var t := FinishThread(cfg, s, p, n);
            if s.threads[p].uid >= 0 then
              UpToDate(t, p, s.threads[p].uid, n) && t.live == s.live - {p} && t.threads.Keys == s.threads.Keys
            else t == s.(live := s.live - {p})
  {
    hide Broadcast, Erase;
    if s.threads[p].uid >= 0 {
      BroadcastUpToDate(cfg, s, p, n, Finish);
    }
  }

  ghost predicate Leaves(cfg: Config, s: Store, t: Store, l: CoreLabel, n: int)
    requires l.Begin? || l.Join? || l.End?
    requires !l.Begin? ==> l.p in s.threads
  {
    match l
    case Begin(p, uid) => t.live == s.live + {p} && UpToDate(t, p, uid, if cfg.registerThreads then 0 else n)
    case Join(p, uid) => t.live == s.live && UpToDate(t, p, uid, n)
    case End(p) =>
      if s.threads[p].uid >= 0 then t.live == s.live - {p} && UpToDate(t, p, s.threads[p].uid, n)
      else t == s.(live := s.live - {p})
  }

  lemma CoreLeaves(cfg: Config, c: Core, l: CoreLabel)
    requires cfg.lag > 0 && RowsOk(c.store) && SilentEmpty(c.store) && CoreEnabled(cfg, c, l)
    requires l.Begin? || l.Join? || l.End?
    ensures Leaves(cfg, c.store, CoreNext(cfg, c, l).store, l, NextTime(c.store))
  {
    hide StartThread, RegisterThread, FinishThread, RowsOk, SilentEmpty, NextTime, UpToDate;
    var s, n := c.store, NextTime(c.store);
    match l
    case Begin(p, uid) => StartLeaves(cfg, s, p, uid, n);
    case Join(p, uid) => JoinLeaves(cfg, s, p, uid, n);
    case End(p) => EndLeaves(cfg, s, p, n);
  }

  /**
    In every state of every run: a thread that starts, registers or ends has everything it traced in the file, and
    one row that says so; a thread that starts unregistered has a row at time 0; one that ends unregistered only
    leaves the live set.
  */
  lemma ComingAndGoing(cfg: Config, m: Memory, run: seq<Label>, l: CoreLabel)
    requires Sane(cfg) && ValidRun(cfg, Initial(cfg, m), run) && (l.Begin? || l.Join? || l.End?)
    requires Enabled(cfg, Final(cfg, Initial(cfg, m), run), Other(l))
    ensures var s := Final(cfg, Initial(cfg, m), run);
            && (!l.Begin? ==> l.p in s.core.store.threads)
            && Leaves(cfg, s.core.store, Next(cfg, s, Other(l)).core.store, l, NextTime(s.core.store))
  {
    hide Initial, Final, ValidRun, CoreNext, RowsOk, SilentEmpty, Leaves, NextTime;
    RunFacts(cfg, m, run);
    var s := Final(cfg, Initial(cfg, m), run);
    CoreLeaves(cfg, s.core, l);
  }

  // ----- the start/finish lock -----

  /** Between `a` and `b` nobody has come, gone or registered, and no event under all thread locks was traced. */
  ghost predicate Undisturbed(a: Store, b: Store) {
    && b.live == a.live && b.threads.Keys == a.threads.Keys
    && (forall q :: q in a.threads ==> b.threads[q].uid == a.threads[q].uid)
    && a.emitted <= b.emitted && (forall i :: |a.emitted| <= i < |b.emitted| ==> !IsGlobal(b.emitted[i]))
  }

  lemma UndisturbedTwice(a: Store, b: Store, c: Store)
    requires Undisturbed(a, b) && Undisturbed(b, c)
    ensures Undisturbed(a, c)
  {
    assert forall i :: 0 <= i < |b.emitted| ==> c.emitted[i] == b.emitted[i];
  }

  lemma RoundUndisturbed(cfg: Config, s: Store, u: Tid, time: int)
    requires s.live <= s.threads.Keys
    ensures Undisturbed(s, FlushOther(cfg, s, u, time))
  {
    hide Insert, Erase;
  }

  lemma LocalUndisturbed(cfg: Config, c: Core, l: CoreLabel)
    requires cfg.lag > 0 && CoreEnabled(cfg, c, l) && LocalEvent(l)
    requires c.owner.Some? && !(l.FlushLeave? && Some(l.p) == c.owner)
    ensures Undisturbed(c.store, CoreNext(cfg, c, l).store) && CoreNext(cfg, c, l).owner == c.owner
  {
    hide Insert, Erase, Recheck, FlushOther, Broadcast;
    if l.FlushOne? {
      RoundUndisturbed(cfg, c.store, c.pending[l.p].others[0], c.pending[l.p].time);
      hide Undisturbed;
    }
  }

  lemma StepUndisturbed(cfg: Config, s: State, l: Label, p: Tid)
    requires cfg.lag > 0 && Enabled(cfg, s, l) && s.core.owner == Some(p) && l != Other(FlushLeave(p))
    ensures var t := Next(cfg, s, l); Undisturbed(s.core.store, t.core.store) && t.core.owner == Some(p)
  {
    StepMovesCore(cfg, s, l);
    var c := CoreStep(cfg, s, l);
    if c.Some? {
      LocalEvents(cfg, s, l);
      hide CoreNext, Undisturbed, CoreEnabled;
      LocalUndisturbed(cfg, s.core, c.value);
    } else {
      assert Next(cfg, s, l).core == s.core;
      hide Enabled, Next;
    }
  }

  /**
    The start/finish lock protects a flush of laggards: from the moment a thread takes it until it gives it back, no
    thread starts, registers or ends, nobody else flushes, and no event under all thread locks is traced.
  */
  lemma {:induction false} FlushIsUndisturbed(cfg: Config, s: State, run: seq<Label>, p: Tid)
    requires cfg.lag > 0 && ValidRun(cfg, s, run) && s.core.owner == Some(p) && Other(FlushLeave(p)) !in run
    ensures var t := Final(cfg, s, run); Undisturbed(s.core.store, t.core.store) && t.core.owner == Some(p)
    ensures forall l :: l in run && l.Other? && (l.core.FlushEnter? || l.core.FlushOne? || l.core.FlushLeave?) ==>
              l.core == FlushOne(p)
    decreases |run|
  {
    if run != [] {
      StepUndisturbed(cfg, s, run[0], p);
      OwnerFlushes(cfg, s, run[0], p);
      assert run == [run[0]] + run[1..];
      hide Enabled, Next, Undisturbed;
      FlushIsUndisturbed(cfg, Next(cfg, s, run[0]), run[1..], p);
      UndisturbedTwice(s.core.store, Next(cfg, s, run[0]).core.store, Final(cfg, s, run).core.store);
    }
  }

  lemma OwnerFlushes(cfg: Config, s: State, l: Label, p: Tid)
    requires Enabled(cfg, s, l) && s.core.owner == Some(p) && l != Other(FlushLeave(p))
    ensures l.Other? && (l.core.FlushEnter? || l.core.FlushOne? || l.core.FlushLeave?) ==> l.core == FlushOne(p)
  {
  }

  // ----- when threads may come and go -----

  /** `p` is live, between instructions, holds no address lock and has no flush to do; nobody flushes laggards. */
  ghost predicate MayTakeAllLocks(cfg: Config, s: State, p: Tid) {
    && s.core.store.live <= s.core.store.threads.Keys && p in s.core.store.live && p !in s.core.pending
    && p in s.control && s.control[p] == Control(Between, []) && s.core.owner == None
  }

  /** No thread ever had this id. */
  ghost predicate IsNew(s: State, uid: int) {
    uid >= 0 && forall q :: q in s.core.store.threads ==> s.core.store.threads[q].uid != uid
  }

  /** Exactly when an event under all thread locks can happen: a thread that holds no other lock is never refused. */
  lemma WhenGlobal(cfg: Config, s: State, p: Tid, uid: int, e: Event)
    requires Sane(cfg)
    ensures Enabled(cfg, s, Other(Announce(p, e))) <==>
            && MayTakeAllLocks(cfg, s, p)
            && (e.StartRoi? || e.EndRoi? || ((e.Call? || e.Return?) && s.core.store.threads[p].uid == -1))
    ensures Enabled(cfg, s, Other(Join(p, uid))) <==>
            && MayTakeAllLocks(cfg, s, p) && cfg.registerThreads && s.core.store.threads[p].uid == -1 && IsNew(s, uid)
    ensures Enabled(cfg, s, Other(End(p))) <==> MayTakeAllLocks(cfg, s, p)
    ensures Enabled(cfg, s, Other(Begin(p, uid))) <==>
            && s.core.store.live <= s.core.store.threads.Keys && s.core.owner == None
            && p !in s.control && p !in s.core.store.threads && if cfg.registerThreads then uid == -1 else IsNew(s, uid)
  {
  }
}
