/**
  Lamport time has no gaps: every line is one tick after some earlier line, or the first tick, and no clock or
  lock stamp is ahead of the lines. And it is no later than it must be.
*/
module TracerTimes {
  import opened TraceLine
  import opened TraceOrder
  import opened Access
  import opened TracerStore
  import opened TracerFile
  import opened TracerCore
  import opened TracerLines
  import opened Tracer

  /** 0, or the time of a line. */
  ghost predicate Reached(f: seq<Line>, t: int) {
    t == 0 || exists l :: l in f && l.time == t
  }

  /** Line `i` is one tick after an earlier line or the first tick; a `thread_sync` line repeats a time. */
  ghost predicate Ticks(f: seq<Line>, i: nat)
    requires i < |f|
  {
    if f[i].event.Sync? then f[i].time > 0 && Reached(f[..i], f[i].time)
    else f[i].time > 0 && Reached(f[..i], f[i].time - 1)
  }

  ghost predicate NoGaps(f: seq<Line>) {
    forall i :: 0 <= i < |f| ==> Ticks(f, i)
  }

  lemma NoGapsSnoc(f: seq<Line>, l: Line)
    requires NoGaps(f) && l.time > 0 && Reached(f, if l.event.Sync? then l.time else l.time - 1)
    ensures NoGaps(f + [l])
  {
    var g := f + [l];
    forall i | 0 <= i < |g| ensures Ticks(g, i) {
      if i < |f| {
        assert Ticks(f, i) && g[..i] == f[..i];
      } else {
        assert g[..i] == f;
      }
    }
  }

  lemma ReachedStays(f: seq<Line>, g: seq<Line>, t: int)
    requires Reached(f, t) && f <= g
    ensures Reached(g, t)
  {
    if t != 0 {
      var l :| l in f && l.time == t;
      assert l in g;
    }
  }

  lemma {:induction false} NoGapsSyncs(f: seq<Line>, g: seq<Line>, time: int)
    requires NoGaps(f) && AddsSyncs(f, g, time) && time > 0 && Reached(f, time)
    ensures NoGaps(g)
    decreases |g|
  {
    if |f| < |g| {
      var h, l := g[..|g| - 1], g[|g| - 1];
      assert g == h + [l] && forall i :: 0 <= i < |h| ==> h[i] == g[i];
      NoGapsSyncs(f, h, time);
      ReachedStays(f, h, time);
      NoGapsSnoc(h, l);
    } else {
      assert g == f;
    }
  }

  // ----- the invariant -----

  ghost predicate ClocksReached(s: Store) {
    forall p :: p in s.threads ==> s.threads[p].clock >= 0 && Reached(s.emitted, s.threads[p].clock)
  }

  ghost predicate CoreTimes(c: Core) {
    && NoGaps(c.store.emitted) && ClocksReached(c.store)
    && (forall p :: p in c.pending ==> c.pending[p].time > 0 && Reached(c.store.emitted, c.pending[p].time))
  }

  /** The highest stamp that a thread has seen so far. */
  function SeenBy(st: Stage): int {
    match st
    case Locking(_, _, seen) => seen
    case Executed(_, seen, _) => seen
    case _ => 0
  }

  ghost predicate TimesOk(s: State) {
    && CoreTimes(s.core)
    && (forall i :: 0 <= i < |s.stamps| ==> Reached(s.core.store.emitted, s.stamps[i]))
    && (forall p :: p in s.control ==>
          SeenBy(s.control[p].stage) >= 0 && Reached(s.core.store.emitted, SeenBy(s.control[p].stage)))
  }

  /** Clocks after a step are clocks before it, or the time of a line of this step. */
  ghost predicate ClocksFrom(s: Store, t: Store, time: int) {
    forall p :: p in t.threads ==>
      || (p in s.threads && t.threads[p].clock == s.threads[p].clock)
      || t.threads[p].clock == 0 || t.threads[p].clock == time
  }

  lemma ClocksStayReached(s: Store, t: Store, time: int)
    requires ClocksReached(s) && ClocksFrom(s, t, time) && s.emitted <= t.emitted
    requires time >= 0 && Reached(t.emitted, time)
    ensures ClocksReached(t)
  {
    forall p | p in t.threads ensures t.threads[p].clock >= 0 && Reached(t.emitted, t.threads[p].clock) {
      if p in s.threads {
        ReachedStays(s.emitted, t.emitted, s.threads[p].clock);
      }
    }
  }

  lemma FlushOtherFrom(cfg: Config, s: Store, u: Tid, time: int)
    requires s.live <= s.threads.Keys
    ensures ClocksFrom(s, FlushOther(cfg, s, u, time), time)
  {
  }

  lemma {:induction false} FlushOthersClocks(cfg: Config, s: Store, us: seq<Tid>, time: int)
    requires s.live <= s.threads.Keys
    ensures ClocksFrom(s, FlushOthers(cfg, s, us, time), time)
    decreases |us|
  {
    if us != [] {
      FlushOthersClocks(cfg, s, us[..|us| - 1], time);
    }
  }

  lemma BroadcastFrom(cfg: Config, s: Store, p: Tid, n: int, e: Event)
    requires p in s.threads && s.live <= s.threads.Keys
    ensures ClocksFrom(s, Broadcast(cfg, s, p, n, e), n) && p in Broadcast(cfg, s, p, n, e).threads
  {
    var l := Line(n, s.threads[p].uid, e);
    TouchClocks(cfg, s, p, l, true);
    var t := Touch(cfg, Emit(s, p, l), p, n, true);
    hide Touch;
    FlushOthersClocks(cfg, t.store, t.others, n);
  }

  /** The time of a step's own line, or of its flush. */
  ghost function StepTime(cfg: Config, c: Core, l: CoreLabel): int
    requires CoreEnabled(cfg, c, l)
  {
    match l
    case Local(_, time, _) => time
    case FlushOne(p) => c.pending[p].time
    case _ => NextTime(c.store)
  }

  lemma StepClocks(cfg: Config, c: Core, l: CoreLabel)
    requires CoreEnabled(cfg, c, l)
    ensures ClocksFrom(c.store, CoreNext(cfg, c, l).store, StepTime(cfg, c, l))
  {
    hide Broadcast, Touch, FlushOther;
    var s := c.store;
    match l
    case Local(p, time, e) => TouchClocks(cfg, s, p, Line(time, s.threads[p].uid, e), false);
    case FlushOne(p) => FlushOtherFrom(cfg, s, c.pending[p].others[0], c.pending[p].time);
    case Announce(p, e) => BroadcastFrom(cfg, s, p, NextTime(s), e);
    case Join(p, uid) => BroadcastFrom(cfg, Named(s, p, s.threads[p].(uid := uid)), p, NextTime(s), Register);
    case Begin(p, uid) => BroadcastFrom(cfg, Named(s, p, ThreadData(uid, 0, [])), p, NextTime(s), Register);
    case End(p) => BroadcastFrom(cfg, s, p, NextTime(s), Finish);
    case _ =>
  }

  lemma MaxReached(s: Store)
    requires ClocksReached(s) && s.live <= s.threads.Keys
    ensures NextTime(s) > 0 && Reached(s.emitted, NextTime(s) - 1)
  {
    var m := MaxClock(s.threads, s.live);
    if m != 0 {
      var p :| p in s.live && s.threads[p].clock == m;
      assert p in s.threads;
    }
  }

  /** The own line of a step is one tick after something reached. */
  lemma StepEmission(cfg: Config, c: Core, l: CoreLabel)
    requires CoreTimes(c) && CoreEnabled(cfg, c, l)
    requires l.Local? ==> l.time > 0 && Reached(c.store.emitted, l.time - 1)
    ensures var f, g := c.store.emitted, CoreNext(cfg, c, l).store.emitted;
            && f <= g && NoGaps(g)
            && (l.Local? || l.FlushOne? || IsBroadcast(cfg, c, l) ==>
                  StepTime(cfg, c, l) > 0 && Reached(g, StepTime(cfg, c, l)))
  {
    hide CoreNext, NoGaps, Reached, AddsSyncs;
    var f, own, g := c.store.emitted, OwnEvent(cfg, c, l), CoreNext(cfg, c, l).store.emitted;
    MaxReached(c.store);
    StepLines(cfg, c, l);
    PrefixOfSyncs(f + own, g, SyncTime(cfg, c, l));
    if own != [] {
      assert own == [own[0]];
      NoGapsSnoc(f, own[0]);
      OwnIsReached(f, own[0], g);
      OwnIsReached(f, own[0], f + own);
      NoGapsSyncsOrNone(f + own, g, SyncTime(cfg, c, l));
    } else {
      assert f + own == f;
      if l.FlushOne? {
        NoGapsSyncs(f, g, SyncTime(cfg, c, l));
        ReachedStays(f, g, c.pending[l.p].time);
      }
    }
  }

  lemma PrefixOfSyncs(f: seq<Line>, g: seq<Line>, time: int)
    requires AddsSyncs(f, g, time)
    ensures f <= g
  {
  }

  lemma OwnIsReached(f: seq<Line>, l: Line, g: seq<Line>)
    requires f + [l] <= g
    ensures Reached(g, l.time)
  {
    assert g[|f|] == l;
  }

  lemma NoGapsSyncsOrNone(f: seq<Line>, g: seq<Line>, time: int)
    requires NoGaps(f) && AddsSyncs(f, g, time) && (g == f || (time > 0 && Reached(f, time)))
    ensures NoGaps(g)
  {
    hide NoGaps, AddsSyncs;
    if g != f {
      NoGapsSyncs(f, g, time);
    }
  }

  lemma CoreStepTimes(cfg: Config, c: Core, l: CoreLabel)
    requires CoreTimes(c) && CoreEnabled(cfg, c, l)
    requires l.Local? ==> l.time > 0 && Reached(c.store.emitted, l.time - 1)
    ensures CoreTimes(CoreNext(cfg, c, l)) && c.store.emitted <= CoreNext(cfg, c, l).store.emitted
    ensures l.Local? ==> Reached(CoreNext(cfg, c, l).store.emitted, l.time)
  {
    StepEmission(cfg, c, l);
    StepClocks(cfg, c, l);
    PendingFrom(cfg, c, l);
    hide CoreNext, NoGaps, Reached, ClocksFrom;
    var s, t := c.store, CoreNext(cfg, c, l).store;
    if l.Local? || l.FlushOne? || IsBroadcast(cfg, c, l) {
      ClocksStayReached(s, t, StepTime(cfg, c, l));
    } else {
      QuietClocks(cfg, c, l);
    }
    forall p | p in CoreNext(cfg, c, l).pending
      ensures CoreNext(cfg, c, l).pending[p].time > 0 && Reached(t.emitted, CoreNext(cfg, c, l).pending[p].time)
    {
      if p in c.pending && c.pending[p].time == CoreNext(cfg, c, l).pending[p].time {
        ReachedStays(s.emitted, t.emitted, c.pending[p].time);
      }
    }
  }

  /** A flush is pending at the time it was decided. */
  lemma PendingFrom(cfg: Config, c: Core, l: CoreLabel)
    requires CoreEnabled(cfg, c, l)
    ensures var d := CoreNext(cfg, c, l);
            forall p :: p in d.pending ==>
              (p in c.pending && d.pending[p].time == c.pending[p].time) || (l.Local? && d.pending[p].time == l.time)
  {
    hide Broadcast, Touch, FlushOther, StartThread, FinishThread, RegisterThread;
  }

  lemma QuietClocks(cfg: Config, c: Core, l: CoreLabel)
    requires CoreTimes(c) && CoreEnabled(cfg, c, l) && !l.Local? && !l.FlushOne? && !IsBroadcast(cfg, c, l)
    ensures ClocksReached(CoreNext(cfg, c, l).store)
  {
    hide Broadcast, Touch, FlushOther;
  }

  // ----- the tracer's steps -----

  /** Stamps and clocks after a step are those before it, or have been reached. */
  lemma KeepsTimes(s: State, t: State)
    requires TimesOk(s) && CoreTimes(t.core) && s.core.store.emitted <= t.core.store.emitted
    requires forall i :: 0 <= i < |t.stamps| ==>
               (i < |s.stamps| && t.stamps[i] == s.stamps[i]) || Reached(t.core.store.emitted, t.stamps[i])
    requires forall p :: p in t.control ==>
               || SeenBy(t.control[p].stage) == 0
               || (p in s.control && SeenBy(t.control[p].stage) == SeenBy(s.control[p].stage))
               || (exists i :: 0 <= i < |s.stamps| && s.stamps[i] == SeenBy(t.control[p].stage) > 0)
    ensures TimesOk(t)
  {
    var f, g := s.core.store.emitted, t.core.store.emitted;
    hide CoreTimes, SeenBy;
    forall i | 0 <= i < |t.stamps| ensures Reached(g, t.stamps[i]) {
      if i < |s.stamps| && t.stamps[i] == s.stamps[i] {
        ReachedStays(f, g, s.stamps[i]);
      }
    }
    forall p | p in t.control ensures SeenBy(t.control[p].stage) >= 0 && Reached(g, SeenBy(t.control[p].stage)) {
      var seen := SeenBy(t.control[p].stage);
      if p in s.control && seen == SeenBy(s.control[p].stage) {
        ReachedStays(f, g, seen);
      } else if i :| 0 <= i < |s.stamps| && s.stamps[i] == seen > 0 {
        ReachedStays(f, g, seen);
      }
    }
  }

  /** The next tick of a thread that stamps. */
  lemma FooterIsTick(s: State, p: Tid)
    requires TimesOk(s) && p in s.control && p in s.core.store.threads
    requires s.control[p].stage.Locking? || (s.control[p].stage.Executed? && s.control[p].stage.at < |s.log|)
    ensures FooterLabel(s, p).time > 0 && Reached(s.core.store.emitted, FooterLabel(s, p).time - 1)
  {
  }

  lemma StepKeepsTimes(cfg: Config, s: State, l: Label)
    requires TimesOk(s) && Enabled(cfg, s, l)
    ensures TimesOk(Next(cfg, s, l))
  {
    hide CoreTimes, CoreNext, CoreEnabled, Reached, Locks;
    var t := Next(cfg, s, l);
    match l
    case Other(c) =>
      OtherShape(cfg, s, c);
      LocalIsTick(cfg, s, c);
      CoreStepTimes(cfg, s.core, c);
      KeepsTimes(s, t);
    case Footer(p) =>
      FooterIsTick(s, p);
      CoreStepTimes(cfg, s.core, FooterLabel(s, p));
      KeepsTimes(s, t);
    case Unlock(p) =>
      ClockIsReached(s, p);
      KeepsTimes(s, t);
    case Lock(p) => KeepsTimes(s, t);
    case _ => KeepsTimes(s, t);
  }

  lemma LocalIsTick(cfg: Config, s: State, c: CoreLabel)
    requires TimesOk(s) && Enabled(cfg, s, Other(c))
    ensures c.Local? ==> c.time > 0 && Reached(s.core.store.emitted, c.time - 1)
  {
    hide Reached, NoGaps;
  }

  lemma ClockIsReached(s: State, p: Tid)
    requires TimesOk(s) && p in s.core.store.threads
    ensures Reached(s.core.store.emitted, Clock(s, p))
  {
    hide Reached;
  }

  lemma {:induction false} RunKeepsTimes(cfg: Config, s: State, run: seq<Label>)
    requires TimesOk(s) && ValidRun(cfg, s, run)
    ensures TimesOk(Final(cfg, s, run))
    decreases |run|
  {
    if run != [] {
      StepKeepsTimes(cfg, s, run[0]);
      hide TimesOk, Enabled, Next;
      RunKeepsTimes(cfg, Next(cfg, s, run[0]), run[1..]);
    }
  }

  // ----- the law -----

  lemma ReachedBounded(f: seq<Line>, t: int)
    requires Reached(f, t)
    ensures t <= Top(Heads(f))
  {
    TopIsMaximum(Heads(f));
    if t != 0 {
      var l :| l in f && l.time == t;
      var i :| 0 <= i < |f| && f[i] == l;
      assert Heads(f)[i] in Heads(f);
    }
  }

  lemma TopSnoc(f: seq<Line>, l: Line)
    ensures Top(Heads(f + [l])) == if l.time > Top(Heads(f)) then l.time else Top(Heads(f))
  {
    HeadsAppend(f, [l]);
    assert Heads([l]) == [HeadOf(l)];
    Snoc(Heads(f), HeadOf(l));
  }

  /** Every tick up to the highest is taken by a line. */
  lemma {:induction false} EveryTick(f: seq<Line>)
    requires NoGaps(f)
    ensures Top(Heads(f)) <= |f|
    ensures forall k :: 1 <= k <= Top(Heads(f)) ==> Reached(f, k)
    decreases |f|
  {
    if f == [] {
      assert Heads(f) == [];
    } else {
      var g, l := f[..|f| - 1], f[|f| - 1];
      assert f == g + [l];
      assert Ticks(f, |f| - 1) && f[..|f| - 1] == g;
      ShorterNoGaps(g, l);
      EveryTick(g);
      TopSnoc(g, l);
      ReachedBounded(g, if l.event.Sync? then l.time else l.time - 1);
      hide Heads, Top, NoGaps, Ticks;
      forall k | 1 <= k <= Top(Heads(f)) ensures Reached(f, k) {
        if k <= Top(Heads(g)) {
          ReachedStays(g, f, k);
        } else {
          assert l in f && l.time == k;
        }
      }
    }
  }

  lemma ShorterNoGaps(g: seq<Line>, l: Line)
    requires NoGaps(g + [l])
    ensures NoGaps(g)
  {
    forall i | 0 <= i < |g| ensures Ticks(g, i) {
      assert Ticks(g + [l], i) && (g + [l])[..i] == g[..i];
    }
  }

  /** Nothing is ahead of the lines, and they take every tick. */
  ghost predicate NothingAhead(s: State) {
    var em := s.core.store.emitted;
    && Top(Heads(em)) <= |em|
    && (forall l :: l in em ==> l.time >= 1)
    && (forall k :: 1 <= k <= Top(Heads(em)) ==> Reached(em, k))
    && (forall p :: p in s.core.store.threads ==> s.core.store.threads[p].clock <= Top(Heads(em)))
    && (forall i :: 0 <= i < |s.stamps| ==> s.stamps[i] <= Top(Heads(em)))
  }

  lemma TimesAreWithin(s: State)
    requires TimesOk(s)
    ensures NothingAhead(s)
  {
    hide Top, Heads, Reached;
    var em := s.core.store.emitted;
    EveryTick(em);
    forall l | l in em ensures l.time >= 1 {
      var i :| 0 <= i < |em| && em[i] == l;
      assert Ticks(em, i);
    }
    forall p | p in s.core.store.threads ensures s.core.store.threads[p].clock <= Top(Heads(em)) {
      ReachedBounded(em, s.core.store.threads[p].clock);
    }
    forall i | 0 <= i < |s.stamps| ensures s.stamps[i] <= Top(Heads(em)) {
      ReachedBounded(em, s.stamps[i]);
    }
  }

  /**
    Time has no gaps. In every reachable state there are at least as many lines as ticks: each tick from 1 to
    the highest is the time of a line, and no clock or lock stamp is above it.
  */
  lemma TimeHasNoGaps(cfg: Config, m: Memory, run: seq<Label>)
    requires Sane(cfg) && ValidRun(cfg, Initial(cfg, m), run)
    ensures NothingAhead(Final(cfg, Initial(cfg, m), run))
  {
    RunKeepsTimes(cfg, Initial(cfg, m), run);
    hide Initial, Final, ValidRun, TimesOk, NothingAhead;
    TimesAreWithin(Final(cfg, Initial(cfg, m), run));
  }
}
