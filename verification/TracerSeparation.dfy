/** When events under all thread locks separate the lines before them from the lines after them. */
module TracerSeparation {
  import opened TraceLine
  import opened TraceOrder
  import opened Access
  import opened TracerStore
  import opened TracerFile
  import opened TracerBroadcast
  import opened TracerPlain
  import opened TracerCore
  import opened Tracer
  import opened TracerEmission
  import opened TracerRuns
  import opened TracerMergeable
  import opened TracerAwake

  // ----- what is emitted stays emitted -----

  lemma {:induction false} FlushOthersEmit(cfg: Config, s: Store, us: seq<Tid>, time: int)
    requires s.live <= s.threads.Keys
    ensures s.emitted <= FlushOthers(cfg, s, us, time).emitted
    decreases |us|
  {
    if us != [] {
      FlushOthersEmit(cfg, s, us[..|us| - 1], time);
    }
  }

  lemma BroadcastEmits(cfg: Config, s: Store, p: Tid, n: int, e: Event)
    requires p in s.threads && s.live <= s.threads.Keys
    ensures s.emitted + [Line(n, s.threads[p].uid, e)] <= Broadcast(cfg, s, p, n, e).emitted
  {
    OwnLineFields(cfg, s, p, Line(n, s.threads[p].uid, e));
    var t := Touch(cfg, Emit(s, p, Line(n, s.threads[p].uid, e)), p, n, true);
    hide Touch, FlushOthers;
    FlushOthersEmit(cfg, t.store, t.others, n);
  }

  lemma StepEmits(cfg: Config, c: Core, l: CoreLabel)
    requires CoreEnabled(cfg, c, l)
    ensures c.store.emitted <= CoreNext(cfg, c, l).store.emitted
  {
    hide Broadcast;
    var s := c.store;
    match l
    case Announce(p, e) => BroadcastEmits(cfg, s, p, NextTime(s), e);
    case Join(p, uid) => BroadcastEmits(cfg, Named(s, p, s.threads[p].(uid := uid)), p, NextTime(s), Register);
    case Begin(p, uid) => BroadcastEmits(cfg, Named(s, p, ThreadData(uid, 0, [])), p, NextTime(s), Register);
    case End(p) => BroadcastEmits(cfg, s, p, NextTime(s), Finish);
    case _ =>
  }

  lemma {:induction false} RunEmits(cfg: Config, s: State, run: seq<Label>)
    requires ValidRun(cfg, s, run)
    ensures s.core.store.emitted <= Final(cfg, s, run).core.store.emitted
    decreases |run|
  {
    if run != [] {
      StepMovesCore(cfg, s, run[0]);
      var c := CoreStep(cfg, s, run[0]);
      if c.Some? {
        StepEmits(cfg, s.core, c.value);
      }
      hide Next, Enabled;
      RunEmits(cfg, Next(cfg, s, run[0]), run[1..]);
    }
  }

  // ----- a line that separates nothing -----

  lemma FileIsEmitted(s: Store, x: Line)
    requires Streams(s) && x in s.file
    ensures x in s.emitted
  {
    InByUid(s.file, x);
    if x.uid != -1 {
      var p :| p in s.threads && s.threads[p].uid == x.uid;
      assert s.threads[p].uid < 0 || x in ByUid(s.emitted, x.uid);
    }
    if x in ByUid(s.emitted, x.uid) {
      FromByUid(s.emitted, x, x.uid);
    }
  }

  /** A line of the file that is not below `n`. */
  lemma LateLine(f: seq<Line>, n: int) returns (x: Line)
    requires 0 < n <= Top(Heads(f))
    ensures x in f && x.time >= n
  {
    var hs := Heads(f);
    TopIsMaximum(hs);
    var h :| h in hs && h.time == Top(hs);
    var i :| 0 <= i < |hs| && hs[i] == h;
    x := f[i];
  }

  lemma LateLineSpoils(em: seq<Line>, f: seq<Line>, x: Line, l: Line)
    requires em + [l] <= f && x in em && x.time >= l.time && IsGlobal(l)
    ensures !Separated(f)
  {
    var i :| 0 <= i < |em| && em[i] == x;
    assert f[i] == x && f[|em|] == l;
  }

  lemma BroadcastBlurs(cfg: Config, s: Store, p: Tid, n: int, e: Event, x: Line)
    requires p in s.threads && s.live <= s.threads.Keys && (s.threads[p].uid == -1 || e.Register?)
    requires x in s.emitted && x.time >= n
    ensures !Separated(Broadcast(cfg, s, p, n, e).emitted)
  {
    BroadcastEmits(cfg, s, p, n, e);
    LateLineSpoils(s.emitted, Broadcast(cfg, s, p, n, e).emitted, x, Line(n, s.threads[p].uid, e));
  }

  lemma StepBlurs(cfg: Config, c: Core, l: CoreLabel)
    requires Streams(c.store) && CoreEnabled(cfg, c, l) && NeedsTop(cfg, c, l) && !Anchored(c.store)
    ensures !Separated(CoreNext(cfg, c, l).store.emitted)
  {
    hide Broadcast, Streams, Separated;
    var s, n := c.store, NextTime(c.store);
    var x := LateLine(s.file, n);
    FileIsEmitted(s, x);
    match l
    case Announce(p, e) => BroadcastBlurs(cfg, s, p, n, e, x);
    case Join(p, uid) => BroadcastBlurs(cfg, Named(s, p, s.threads[p].(uid := uid)), p, n, Register, x);
    case Begin(p, uid) => BroadcastBlurs(cfg, Named(s, p, ThreadData(uid, 0, [])), p, n, Register, x);
    case _ =>
  }

  lemma PrefixSeparated(em: seq<Line>, f: seq<Line>)
    requires em <= f && Separated(f)
    ensures Separated(em)
  {
    assert forall i :: 0 <= i < |em| ==> em[i] == f[i];
  }

  // ----- runs -----

  lemma StepKeepsSeparation(cfg: Config, s: State, l: Label)
    requires cfg.lag > 0 && CoreInv(s.core) && StreamInv(s.core) && OrderInv(s.core.store) && Enabled(cfg, s, l)
    requires var c := CoreStep(cfg, s, l); c.Some? && IsBroadcast(cfg, s.core, c.value) ==> Anchored(s.core.store)
    ensures StreamInv(Next(cfg, s, l).core) && OrderInv(Next(cfg, s, l).core.store)
  {
    StepMovesCore(cfg, s, l);
    var c := CoreStep(cfg, s, l);
    if c.Some? {
      StepKeepsStreams(cfg, s.core, c.value);
      StepKeepsOrder(cfg, s.core, c.value);
    }
  }

  lemma {:induction false} SeparatedExactly(cfg: Config, s: State, run: seq<Label>, b: int)
    requires AllInv(cfg, s.core, b) && StreamInv(s.core) && OrderInv(s.core.store) && ValidRun(cfg, s, run)
    ensures Separated(Final(cfg, s, run).core.store.emitted) <==> AwakeRun(cfg, s, run)
    decreases |run|
  {
    if run != [] {
      var t, c := Next(cfg, s, run[0]), CoreStep(cfg, s, run[0]);
      AnchoredIsAwake(s.core, b);
      if c.Some? && NeedsTop(cfg, s.core, c.value) && !SomeAwake(s.core.store) {
        StepMovesCore(cfg, s, run[0]);
        StepBlurs(cfg, s.core, c.value);
        RunEmits(cfg, t, run[1..]);
        if Separated(Final(cfg, t, run[1..]).core.store.emitted) {
          PrefixSeparated(t.core.store.emitted, Final(cfg, t, run[1..]).core.store.emitted);
        }
      } else {
        var b' := StepKeepsAll(cfg, s, run[0], b);
        StepKeepsSeparation(cfg, s, run[0]);
        SeparatedExactly(cfg, t, run[1..], b');
      }
    }
  }

  // ----- ties in the file -----

  /** `tr` lines and lines of unregistered threads are above everything before them in the file. */
  ghost predicate Above(f: seq<Line>) {
    forall i, j :: 0 <= i < j < |f| && (f[j].uid == -1 || f[j].event.Register?) ==> f[i].time < f[j].time
  }

  /** A step that needs no place above the file adds nothing that needs one. */
  lemma StepAddsPlain(cfg: Config, c: Core, l: CoreLabel)
    requires CoreInv(c) && CoreEnabled(cfg, c, l) && !NeedsTop(cfg, c, l)
    ensures AddsPlain(c.store.file, CoreNext(cfg, c, l).store.file)
  {
    hide FileInv, Touch, FlushOther, Broadcast, FinishThread, BuffersPlain;
    var s := c.store;
    LiveIsKnown(s, s.live);
    FileBuffersPlain(s);
    assert s.file[|s.file|..] == [];
    match l
    case Local(p, time, e) => TouchPlain(cfg, s, p, Line(time, s.threads[p].uid, e));
    case FlushOne(p) => FlushOtherPlain(cfg, s, c.pending[p].others[0], c.pending[p].time);
    case Announce(p, e) => AnnouncePlain(cfg, c, p, e);
    case End(p) => EndPlain(cfg, s, p, NextTime(s));
    case _ =>
  }

  lemma AnnouncePlain(cfg: Config, c: Core, p: Tid, e: Event)
    requires CoreInv(c) && BuffersPlain(c.store) && CoreEnabled(cfg, c, Announce(p, e)) && c.store.threads[p].uid != -1
    ensures AddsPlain(c.store.file, Broadcast(cfg, c.store, p, NextTime(c.store), e).file)
  {
    var s, n := c.store, NextTime(c.store);
    UidIsNotNegative(c, p);
    BroadcastPlain(cfg, s, p, n, e);
    AddsOne(s.file, s.threads[p].buffer, Line(n, s.threads[p].uid, e), Broadcast(cfg, s, p, n, e).file);
  }

  lemma AbovePrefix(f: seq<Line>, g: seq<Line>)
    requires f <= g && Above(g)
    ensures Above(f)
  {
    assert forall i :: 0 <= i < |f| ==> f[i] == g[i];
  }

  lemma AbovePlain(f: seq<Line>, g: seq<Line>)
    requires Above(f) && AddsPlain(f, g)
    ensures Above(g)
  {
    forall j | |f| <= j < |g| ensures g[j].uid >= 0 && !g[j].event.Register? {
      assert g[|f|..][j - |f|] == g[j];
    }
    forall i, j | 0 <= i < j < |g| && (g[j].uid == -1 || g[j].event.Register?) ensures g[i].time < g[j].time {
      assert f[i] == g[i] && f[j] == g[j];
    }
  }

  /** A line above the whole file keeps it free of ties, any other spoils it. */
  lemma AboveSnoc(f: seq<Line>, l: Line)
    requires Above(f) && (l.uid == -1 || l.event.Register?) && l.time > 0
    ensures Above(f + [l]) <==> Top(Heads(f)) < l.time
  {
    TopIsMaximum(Heads(f));
    if Top(Heads(f)) < l.time {
      forall i, j | 0 <= i < j < |f + [l]| && ((f + [l])[j].uid == -1 || (f + [l])[j].event.Register?)
        ensures (f + [l])[i].time < (f + [l])[j].time
      {
        if j < |f| {
          assert f[i].time < f[j].time;
        } else {
          assert Heads(f)[i] in Heads(f);
        }
      }
    } else {
      var x := LateLine(f, l.time);
      var i :| 0 <= i < |f| && f[i] == x;
      assert (f + [l])[i] == x && (f + [l])[|f|] == l;
    }
  }

  lemma BroadcastAbove(cfg: Config, s: Store, p: Tid, n: int, e: Event)
    requires p in s.threads && s.live <= s.threads.Keys && BuffersPlain(s) && s.threads[p].buffer == [] && n > 0
    requires (s.threads[p].uid == -1 || e.Register?) && Above(s.file)
    ensures Above(Broadcast(cfg, s, p, n, e).file) <==> Top(Heads(s.file)) < n
  {
    var l, t := Line(n, s.threads[p].uid, e), Broadcast(cfg, s, p, n, e);
    hide Broadcast, Above, Plain, BuffersPlain, Top, Heads;
    assert s.file + [] == s.file;
    BroadcastPlain(cfg, s, p, n, e);
    AboveSnoc(s.file, l);
    if Above(s.file + [l]) {
      AbovePlain(s.file + [l], t.file);
    } else if Above(t.file) {
      AbovePrefix(s.file + [l], t.file);
    }
  }

  lemma BroadcastStepAbove(cfg: Config, c: Core, l: CoreLabel)
    requires CoreInv(c) && CoreEnabled(cfg, c, l) && NeedsTop(cfg, c, l) && Above(c.store.file)
    ensures Above(CoreNext(cfg, c, l).store.file) <==> Anchored(c.store)
  {
    var s, n := c.store, NextTime(c.store);
    FileBuffersPlain(s);
    hide Broadcast, Above, Top, Heads;
    match l
    case Announce(p, e) =>
      assert BufferOk(s, s.live, p);
      BroadcastAbove(cfg, s, p, n, e);
    case Join(p, uid) =>
      assert BufferOk(s, s.live, p);
      BroadcastAbove(cfg, Named(s, p, s.threads[p].(uid := uid)), p, n, Register);
    case Begin(p, uid) => BroadcastAbove(cfg, Named(s, p, ThreadData(uid, 0, [])), p, n, Register);
    case _ =>
  }

  lemma StepAbove(cfg: Config, c: Core, l: CoreLabel)
    requires CoreInv(c) && CoreEnabled(cfg, c, l) && Above(c.store.file)
    ensures Above(CoreNext(cfg, c, l).store.file) <==> (NeedsTop(cfg, c, l) ==> Anchored(c.store))
  {
    hide CoreInv, CoreEnabled, CoreNext, NeedsTop, Above, Anchored;
    if NeedsTop(cfg, c, l) {
      BroadcastStepAbove(cfg, c, l);
    } else {
      StepAddsPlain(cfg, c, l);
      AbovePlain(c.store.file, CoreNext(cfg, c, l).store.file);
    }
  }

  lemma {:induction false} AboveExactly(cfg: Config, s: State, run: seq<Label>, b: int)
    requires AllInv(cfg, s.core, b) && Above(s.core.store.file) && ValidRun(cfg, s, run)
    ensures Above(Final(cfg, s, run).core.store.file) <==> AwakeRun(cfg, s, run)
    decreases |run|
  {
    if run != [] {
      var t, c := Next(cfg, s, run[0]), CoreStep(cfg, s, run[0]);
      StepMovesCore(cfg, s, run[0]);
      AnchoredIsAwake(s.core, b);
      if c.Some? {
        StepAbove(cfg, s.core, c.value);
      }
      hide AllInv, Enabled, Next, Above, SomeAwake, Anchored, NeedsTop;
      if c.Some? && NeedsTop(cfg, s.core, c.value) && !SomeAwake(s.core.store) {
        RunExtends(cfg, t, run[1..]);
        if Above(Final(cfg, t, run[1..]).core.store.file) {
          AbovePrefix(t.core.store.file, Final(cfg, t, run[1..]).core.store.file);
        }
      } else {
        var b' := StepKeepsAll(cfg, s, run[0], b);
        AboveExactly(cfg, t, run[1..], b');
      }
    }
  }

  /**
    Every event traced under all locks is stamped above everything emitted before it and below everything
    emitted after it, except `thread_sync` lines of its own time, if and only if the file, besides being legal
    for merging, repeats no time at a `tr` line or the line of an unregistered thread; and that is so if and
    only if some live thread was awake whenever such a line was traced.
  */
  lemma EmissionSeparated(cfg: Config, m: Memory, run: seq<Label>)
    requires Sane(cfg) && ValidRun(cfg, Initial(cfg, m), run)
    ensures var s := Final(cfg, Initial(cfg, m), run).core.store;
            && (Separated(s.emitted) <==> AwakeRun(cfg, Initial(cfg, m), run))
            && (Separated(s.emitted) <==> Wf(Heads(s.file)) && Above(s.file))
  {
    EmptyAllInv(cfg);
    SeparatedExactly(cfg, Initial(cfg, m), run, 0);
    AboveExactly(cfg, Initial(cfg, m), run, 0);
    StrictConditionsAgree(cfg, Initial(cfg, m), run, 0);
    MergeableWhenAwake(cfg, m, run);
  }
}
