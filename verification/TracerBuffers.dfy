/** When a buffer is written to the file: which lines wait in it, and for how long. */
module TracerBuffers {
  import opened TraceLine
  import opened Access
  import opened TracerStore
  import opened TracerFile
  import opened TracerBroadcast
  import opened TracerCore
  import opened TracerLag
  import opened TracerEmission
  import opened Tracer
  import opened TracerAtomic
  import opened TracerRuns
  import opened TracerTrace

  /** Fewer lines than `max(1, accessesFlush)`, none of them traced under all thread locks. */
  ghost predicate Waiting(cfg: Config, b: seq<Line>) {
    && |b| < (if cfg.accessesFlush > 1 then cfg.accessesFlush else 1)
    && (forall l :: l in b ==> !IsGlobal(l))
  }

  ghost predicate BuffersWait(cfg: Config, s: Store) {
    forall p :: p in s.threads ==> Waiting(cfg, s.threads[p].buffer)
  }

  /** Every buffer has been written, or is as it was. */
  ghost predicate BuffersFrom(s: Store, t: Store) {
    forall p :: p in t.threads ==>
      t.threads[p].buffer == [] || (p in s.threads && t.threads[p].buffer == s.threads[p].buffer)
  }

  lemma FlushOtherBuffers(cfg: Config, s: Store, u: Tid, time: int)
    requires s.live <= s.threads.Keys
    ensures BuffersFrom(s, FlushOther(cfg, s, u, time))
  {
    hide Insert, Erase;
  }

  lemma {:induction false} FlushOthersBuffers(cfg: Config, s: Store, us: seq<Tid>, time: int)
    requires s.live <= s.threads.Keys
    ensures BuffersFrom(s, FlushOthers(cfg, s, us, time))
    decreases |us|
  {
    hide FlushOther;
    if us != [] {
      FlushOthersBuffers(cfg, s, us[..|us| - 1], time);
      FlushOtherBuffers(cfg, FlushOthers(cfg, s, us[..|us| - 1], time), us[|us| - 1], time);
    }
  }

  lemma BroadcastBuffers(cfg: Config, s: Store, p: Tid, n: int, e: Event)
    requires p in s.threads && s.live <= s.threads.Keys
    ensures var t := Broadcast(cfg, s, p, n, e); BuffersFrom(s, t) && p in t.threads && t.threads[p].buffer == []
  {
    var l := Line(n, s.threads[p].uid, e);
    OwnLineFields(cfg, s, p, l);
    var t := Touch(cfg, Emit(s, p, l), p, n, true);
    assert t.store == OwnLine(cfg, s, p, l);
    hide Touch, OwnLine, FlushOthers;
    FlushOthersBuffers(cfg, t.store, t.others, n);
  }

  // ----- events of registered threads -----

  /** The file gets `b`; the buffer is empty, and the only row of `p` in the table has this time. */
  ghost predicate Written(s: Store, t: Store, p: Tid, time: int, b: seq<Line>) {
    && t.file == s.file + b && p in t.threads && t.threads[p].buffer == []
    && (forall e :: e in t.lastFlushed <==> (e in s.lastFlushed && e.tid != p) || e == Flushed(time, p))
  }

  /**
    An event that forces nothing waits in the buffer if it and the lines there are fewer than `accessesFlush`;
    then file, table, cache and flushes stay as they are. Otherwise all of them are written at once.
  */
  lemma LocalWrites(cfg: Config, c: Core, p: Tid, time: int, e: Event)
    requires CoreEnabled(cfg, c, Local(p, time, e))
    ensures var s, d := c.store, CoreNext(cfg, c, Local(p, time, e));
            var b := s.threads[p].buffer + [Line(time, s.threads[p].uid, e)];
            if |s.threads[p].buffer| + 1 < cfg.accessesFlush then
              && d.store == s.(threads := s.threads[p := ThreadData(s.threads[p].uid, time, b)],
                               emitted := s.emitted + [Line(time, s.threads[p].uid, e)])
              && d.pending == c.pending && d.owner == c.owner
            else
              && Written(s, d.store, p, time, b) && d.store.live == s.live
              && d.store.threads == s.threads[p := ThreadData(s.threads[p].uid, time, [])]
  {
    hide Insert, Erase, Recheck;
    ReplaceRow(c.store.lastFlushed, p, time);
  }

  // ----- every state of every run -----

  lemma QuietBuffers(cfg: Config, c: Core, l: CoreLabel)
    requires CoreEnabled(cfg, c, l) && !l.Local?
    ensures BuffersFrom(c.store, CoreNext(cfg, c, l).store)
  {
    hide Broadcast, FlushOther;
    var s, n := c.store, NextTime(c.store);
    match l
    case FlushOne(p) => FlushOtherBuffers(cfg, s, c.pending[p].others[0], c.pending[p].time);
    case Announce(p, e) => BroadcastBuffers(cfg, s, p, n, e);
    case Join(p, uid) => BroadcastBuffers(cfg, Named(s, p, s.threads[p].(uid := uid)), p, n, Register);
    case Begin(p, uid) => BroadcastBuffers(cfg, Named(s, p, ThreadData(uid, 0, [])), p, n, Register);
    case End(p) => BroadcastBuffers(cfg, s, p, n, Finish);
    case _ =>
  }

  lemma StepKeepsWaiting(cfg: Config, c: Core, l: CoreLabel)
    requires BuffersWait(cfg, c.store) && CoreEnabled(cfg, c, l) && LocalEvent(l)
    ensures BuffersWait(cfg, CoreNext(cfg, c, l).store)
  {
    if l.Local? {
      LocalWrites(cfg, c, l.p, l.time, l.event);
      hide CoreNext;
    } else {
      QuietBuffers(cfg, c, l);
      hide CoreNext;
    }
  }

  lemma LocalEvents(cfg: Config, s: State, l: Label)
    requires Enabled(cfg, s, l) && CoreStep(cfg, s, l).Some?
    ensures LocalEvent(CoreStep(cfg, s, l).value)
  {
    hide CoreEnabled;
  }

  lemma {:induction false} RunKeepsWaiting(cfg: Config, s: State, run: seq<Label>)
    requires BuffersWait(cfg, s.core.store) && ValidRun(cfg, s, run)
    ensures BuffersWait(cfg, Final(cfg, s, run).core.store)
    decreases |run|
  {
    if run != [] {
      StepMovesCore(cfg, s, run[0]);
      var c := CoreStep(cfg, s, run[0]);
      if c.Some? {
        LocalEvents(cfg, s, run[0]);
        StepKeepsWaiting(cfg, s.core, c.value);
      }
      hide BuffersWait, Enabled, Next;
      RunKeepsWaiting(cfg, Next(cfg, s, run[0]), run[1..]);
    }
  }

  /** What was emitted is in the file, unless it waits in a buffer. */
  lemma InFileOrBuffer(s: Store, l: Line)
    requires Streams(s) && l in s.emitted
    ensures l in s.file || exists p :: p in s.threads && l in s.threads[p].buffer
  {
    hide ByUid, Known;
    InByUid(s.emitted, l);
    if l.uid == -1 {
      FromByUid(s.file, l, -1);
    } else {
      assert Known(s, l.uid);
      InOwnBuffer(s, l);
    }
  }

  lemma InOwnBuffer(s: Store, l: Line)
    requires Streams(s) && l in ByUid(s.emitted, l.uid) && l.uid != -1 && Known(s, l.uid)
    ensures l in s.file || exists p :: p in s.threads && l in s.threads[p].buffer
  {
    hide ByUid;
    var p :| p in s.threads && s.threads[p].uid == l.uid;
    assert Intact(s, p);
    if l !in s.threads[p].buffer {
      FromByUid(s.file, l, l.uid);
    }
  }

  /**
    In every reachable state every buffer holds fewer lines than `max(1, accessesFlush)`, and every line traced
    under all thread locks is in the file.
  */
  lemma BuffersAreShort(cfg: Config, m: Memory, run: seq<Label>)
    requires Sane(cfg) && ValidRun(cfg, Initial(cfg, m), run)
    ensures var s := Final(cfg, Initial(cfg, m), run).core.store;
            && (forall p :: p in s.threads ==>
                  |s.threads[p].buffer| < if cfg.accessesFlush > 1 then cfg.accessesFlush else 1)
            && (forall l :: l in s.emitted && IsGlobal(l) ==> l in s.file)
  {
    hide Linked, AtomicInv, Streams;
    InitialStreams(cfg, m);
    InitialInv(cfg, m);
    RunKeepsLinks(cfg, Initial(cfg, m), run);
    RunKeepsWaiting(cfg, Initial(cfg, m), run);
    var s := Final(cfg, Initial(cfg, m), run).core.store;
    forall l | l in s.emitted && IsGlobal(l) ensures l in s.file {
      InFileOrBuffer(s, l);
    }
  }

  lemma InitialStreams(cfg: Config, m: Memory)
    requires Sane(cfg)
    ensures Linked(Initial(cfg, m)) && StreamInv(Initial(cfg, m).core)
  {
  }
}
