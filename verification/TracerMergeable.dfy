/** Exactly when the trace file is a legal input for the merge utility. */
module TracerMergeable {
  import opened TraceLine
  import opened TraceOrder
  import opened Access
  import opened TracerStore
  import opened TracerFile
  import opened TracerBroadcast
  import opened TracerCore
  import opened Tracer
  import opened TracerRuns

  /** Steps that emit a `tr` line or the line of an unregistered thread. */
  ghost predicate NeedsTop(cfg: Config, c: Core, l: CoreLabel) {
    match l
    case Announce(p, _) => p in c.store.threads && c.store.threads[p].uid == -1
    case Join(_, _) => true
    case Begin(_, _) => !cfg.registerThreads
    case _ => false
  }

  // ----- the file only grows -----

  predicate Extends(s: Store, t: Store) {
    s.file <= t.file
  }

  lemma FlushOtherExtends(cfg: Config, s: Store, u: Tid, time: int)
    requires s.live <= s.threads.Keys
    ensures Extends(s, FlushOther(cfg, s, u, time))
  {
  }

  lemma {:induction false} FlushOthersExtend(cfg: Config, s: Store, us: seq<Tid>, time: int)
    requires s.live <= s.threads.Keys
    ensures Extends(s, FlushOthers(cfg, s, us, time))
    decreases |us|
  {
    if us != [] {
      FlushOthersExtend(cfg, s, us[..|us| - 1], time);
      FlushOtherExtends(cfg, FlushOthers(cfg, s, us[..|us| - 1], time), us[|us| - 1], time);
    }
  }

  /** A broadcast's own line is in the file, right behind what was in the thread's buffer. */
  lemma BroadcastExtends(cfg: Config, s: Store, p: Tid, n: int, e: Event)
    requires p in s.threads && s.live <= s.threads.Keys
    ensures s.file + s.threads[p].buffer + [Line(n, s.threads[p].uid, e)] <= Broadcast(cfg, s, p, n, e).file
    ensures Extends(s, Broadcast(cfg, s, p, n, e))
  {
    var l := Line(n, s.threads[p].uid, e);
    OwnLineFields(cfg, s, p, l);
    var t := Touch(cfg, Emit(s, p, l), p, n, true);
    hide Touch, FlushOthers;
    FlushOthersExtend(cfg, t.store, t.others, n);
  }

  lemma StepExtends(cfg: Config, c: Core, l: CoreLabel)
    requires CoreEnabled(cfg, c, l)
    ensures Extends(c.store, CoreNext(cfg, c, l).store)
  {
    hide Broadcast, FlushOther;
    var s := c.store;
    match l
    case FlushOne(p) => FlushOtherExtends(cfg, s, c.pending[p].others[0], c.pending[p].time);
    case Announce(p, e) => BroadcastExtends(cfg, s, p, NextTime(s), e);
    case Join(p, uid) => BroadcastExtends(cfg, Named(s, p, s.threads[p].(uid := uid)), p, NextTime(s), Register);
    case Begin(p, uid) => BroadcastExtends(cfg, Named(s, p, ThreadData(uid, 0, [])), p, NextTime(s), Register);
    case End(p) => BroadcastExtends(cfg, s, p, NextTime(s), Finish);
    case _ =>
  }

  lemma {:induction false} RunExtends(cfg: Config, s: State, run: seq<Label>)
    requires ValidRun(cfg, s, run)
    ensures Extends(s.core.store, Final(cfg, s, run).core.store)
    decreases |run|
  {
    if run != [] {
      StepMovesCore(cfg, s, run[0]);
      var c := CoreStep(cfg, s, run[0]);
      if c.Some? {
        StepExtends(cfg, s.core, c.value);
      }
      hide Next, Enabled;
      RunExtends(cfg, Next(cfg, s, run[0]), run[1..]);
    }
  }

  lemma {:induction false} PrefixWf(f: seq<Head>, g: seq<Head>)
    requires Wf(f + g)
    ensures Wf(f)
    decreases |g|
  {
    if g == [] {
      assert f + g == f;
    } else {
      assert (f + g)[..|f + g| - 1] == f + g[..|g| - 1];
      PrefixWf(f, g[..|g| - 1]);
    }
  }

  lemma PrefixLegal(f: seq<Line>, g: seq<Line>)
    requires f <= g && Wf(Heads(g))
    ensures Wf(Heads(f))
  {
    assert g == f + g[|f|..];
    HeadsAppend(f, g[|f|..]);
    PrefixWf(Heads(f), Heads(g[|f|..]));
  }

  // ----- a step that breaks the file -----

  /** A `tr` line or one of an unregistered thread that may not follow the file spoils it. */
  lemma LineSpoils(f: seq<Line>, l: Line)
    requires l.uid == -1 || l.event.Register?
    requires l.time < Top(Heads(f)) || (l.uid == -1 && l.time <= LastSilent(Heads(f)))
    ensures !Wf(Heads(f + [l]))
  {
    HeadsAppend(f, [l]);
    assert Heads([l]) == [HeadOf(l)];
    Snoc(Heads(f), HeadOf(l));
  }

  lemma BroadcastSpoils(cfg: Config, s: Store, p: Tid, n: int, e: Event)
    requires p in s.threads && s.live <= s.threads.Keys && s.threads[p].buffer == []
    requires s.threads[p].uid == -1 || e.Register?
    requires n < Top(Heads(s.file)) || (s.threads[p].uid == -1 && n <= LastSilent(Heads(s.file)))
    ensures !Wf(Heads(Broadcast(cfg, s, p, n, e).file))
  {
    var l := Line(n, s.threads[p].uid, e);
    BroadcastExtends(cfg, s, p, n, e);
    assert s.file + [] == s.file;
    LineSpoils(s.file, l);
    hide Broadcast, Wf, Heads;
    if Wf(Heads(Broadcast(cfg, s, p, n, e).file)) {
      PrefixLegal(s.file + [l], Broadcast(cfg, s, p, n, e).file);
    }
  }

  lemma StepSpoils(cfg: Config, c: Core, l: CoreLabel)
    requires CoreInv(c) && CoreEnabled(cfg, c, l) && NeedsTop(cfg, c, l) && !Fits(c, l)
    ensures !Wf(Heads(CoreNext(cfg, c, l).store.file))
  {
    var s := c.store;
    match l
    case Announce(p, e) =>
      assert BufferOk(s, s.live, p);
      BroadcastSpoils(cfg, s, p, NextTime(s), e);
    case Join(p, uid) =>
      assert BufferOk(s, s.live, p);
      BroadcastSpoils(cfg, Named(s, p, s.threads[p].(uid := uid)), p, NextTime(s), Register);
    case Begin(p, uid) => BroadcastSpoils(cfg, Named(s, p, ThreadData(uid, 0, [])), p, NextTime(s), Register);
    case _ =>
  }

  // ----- a step that keeps the file legal -----

  lemma AnnounceRegistered(cfg: Config, c: Core, p: Tid, e: Event)
    requires cfg.lag > 0 && CoreInv(c) && CoreEnabled(cfg, c, Announce(p, e)) && c.store.threads[p].uid >= 0
    ensures CoreInv(CoreNext(cfg, c, Announce(p, e)))
  {
    var s, n := c.store, NextTime(c.store);
    var l := Line(n, s.threads[p].uid, e);
    TouchKeeps(cfg, s, s.live, p, l, true);
    BroadcastKeeps(cfg, s, s.live, p, l);
  }

  lemma EndFile(cfg: Config, s: Store, p: Tid, n: int)
    requires cfg.lag > 0 && FileInv(s, s.live) && p in s.live && s.threads[p].uid >= 0
    requires forall q :: q in s.live ==> s.threads[q].clock < n
    ensures var t := FinishThread(cfg, s, p, n);
            && FileInv(t, s.live - {p}) && t.live == s.live - {p} && t.threads.Keys == s.threads.Keys
            && (forall q :: q in s.threads ==> s.threads[q].clock <= t.threads[q].clock)
  {
    FinishLine(cfg, s, s.live, p, Line(n, s.threads[p].uid, Finish));
    BroadcastKeeps(cfg, s, s.live - {p}, p, Line(n, s.threads[p].uid, Finish));
    var b := Broadcast(cfg, s, p, n, Finish);
    assert BufferOk(b, s.live - {p}, p);
    assert b.threads[p].buffer == [];
    hide Broadcast;
    SameContents(b, FinishThread(cfg, s, p, n), s.live - {p});
  }

  lemma PendingStays(c: Core, t: Store, p: Tid)
    requires PendingOk(c) && p !in c.pending && t.live == c.store.live - {p} && t.threads.Keys == c.store.threads.Keys
    requires forall q :: q in c.store.threads ==> c.store.threads[q].clock <= t.threads[q].clock
    ensures PendingOk(Core(t, c.pending, c.owner))
  {
  }

  lemma EndRegistered(cfg: Config, c: Core, p: Tid)
    requires cfg.lag > 0 && CoreInv(c) && CoreEnabled(cfg, c, End(p)) && c.store.threads[p].uid >= 0
    ensures CoreInv(CoreNext(cfg, c, End(p)))
  {
    hide FinishThread, StartThread, RegisterThread, Broadcast, Touch, FlushOther, PendingOk;
    EndFile(cfg, c.store, p, NextTime(c.store));
    PendingStays(c, FinishThread(cfg, c.store, p, NextTime(c.store)), p);
  }

  lemma StepStaysLegal(cfg: Config, c: Core, l: CoreLabel)
    requires cfg.lag > 0 && CoreInv(c) && CoreEnabled(cfg, c, l) && (NeedsTop(cfg, c, l) ==> Fits(c, l))
    ensures CoreInv(CoreNext(cfg, c, l))
  {
    if IsBroadcast(cfg, c, l) && !NeedsTop(cfg, c, l) {
      match l
      case Announce(p, e) =>
        UidIsNotNegative(c, p);
        AnnounceRegistered(cfg, c, p, e);
      case End(p) => EndRegistered(cfg, c, p);
      case _ =>
    } else {
      StepKeepsFile(cfg, c, l);
    }
  }

  lemma UidIsNotNegative(c: Core, p: Tid)
    requires CoreInv(c) && p in c.store.threads && c.store.threads[p].uid != -1
    ensures c.store.threads[p].uid >= 0
  {
  }

  // ----- the condition -----

  /**
    Whenever a thread registers, or an unregistered thread is traced, one more than the highest live clock
    is not below the file and, in the second case, above all lines of unregistered threads.
  */
  ghost predicate ClocksLead(cfg: Config, s: State, run: seq<Label>)
    requires ValidRun(cfg, s, run)
    decreases |run|
  {
    run == []
    || (&& (var c := CoreStep(cfg, s, run[0]);
            c.Some? && NeedsTop(cfg, s.core, c.value) ==> Fits(s.core, c.value))
        && ClocksLead(cfg, Next(cfg, s, run[0]), run[1..]))
  }

  lemma {:induction false} LegalExactly(cfg: Config, s: State, run: seq<Label>)
    requires cfg.lag > 0 && CoreInv(s.core) && ValidRun(cfg, s, run)
    ensures Wf(Heads(Final(cfg, s, run).core.store.file)) <==> ClocksLead(cfg, s, run)
    ensures ClocksLead(cfg, s, run) ==> CoreInv(Final(cfg, s, run).core)
    decreases |run|
  {
    if run != [] {
      var t, c := Next(cfg, s, run[0]), CoreStep(cfg, s, run[0]);
      StepMovesCore(cfg, s, run[0]);
      if c.Some? && NeedsTop(cfg, s.core, c.value) && !Fits(s.core, c.value) {
        StepSpoils(cfg, s.core, c.value);
        RunExtends(cfg, t, run[1..]);
        SpoiltForGood(t.core.store.file, Final(cfg, t, run[1..]).core.store.file);
      } else {
        if c.Some? {
          StepStaysLegal(cfg, s.core, c.value);
        }
        LegalExactly(cfg, t, run[1..]);
      }
    }
  }

  lemma SpoiltForGood(f: seq<Line>, g: seq<Line>)
    requires f <= g && !Wf(Heads(f))
    ensures !Wf(Heads(g))
  {
    if Wf(Heads(g)) {
      PrefixLegal(f, g);
    }
  }

  /**
    Under every interleaving, also of the flushes of other threads' buffers, the trace file is a legal
    input for the merge utility if and only if, whenever a thread registered or an unregistered thread
    was traced, the time of the line fitted what was in the file. Once no registered thread is live, a
    legal file contains the `tf` line of every thread that registered, and no line is left in a buffer.
  */
  lemma MergeableExactly(cfg: Config, m: Memory, run: seq<Label>)
    requires Sane(cfg) && ValidRun(cfg, Initial(cfg, m), run)
    ensures var s := Final(cfg, Initial(cfg, m), run).core.store;
            && (Wf(Heads(s.file)) <==> ClocksLead(cfg, Initial(cfg, m), run))
            && (Wf(Heads(s.file)) && (forall p :: p in s.live && p in s.threads ==> s.threads[p].uid < 0) ==>
                  Active(Heads(s.file)) == map[] && forall p :: p in s.threads ==> s.threads[p].buffer == [])
  {
    EmptyCoreInv();
    LegalExactly(cfg, Initial(cfg, m), run);
    var s := Final(cfg, Initial(cfg, m), run).core.store;
    if Wf(Heads(s.file)) && forall p :: p in s.live && p in s.threads ==> s.threads[p].uid < 0 {
      AllFinished(s);
    }
  }
}
