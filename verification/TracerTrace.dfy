/**
  The trace tells the run: the memory lines emitted by a thread are, in order, the accesses it
  executed, so the memory lines of the whole trace, sorted by time, are a faithful replay.
*/
module TracerTrace {
  import opened Options
  import opened TraceLine
  import opened Access
  import opened Replay
  import opened TracerStore
  import opened TracerFile
  import opened TracerBroadcast
  import opened TracerCore
  import opened Tracer
  import opened TracerAtomic
  import opened TracerEmission
  import opened TracerRuns

  /** Only a compare-and-swap that is traced after the fact can be seen to fail. */
  predicate ShownAsWrite(e: Entry) {
    e.access.stampedAfter ==> e.access.op(e.got).Some?
  }

  function LineOf(e: Entry, uid: int): Line
    requires e.stamp.Some?
  {
    Line(e.stamp.value, uid, MemoryEvent(e.access, ShownAsWrite(e)))
  }

  /** The lines of the stamped accesses that thread `p` executed, in execution order. */
  function ThreadLines(log: seq<Entry>, p: Tid, uid: int): seq<Line> {
    if log == [] then []
    else
      var e := log[|log| - 1];
      ThreadLines(log[..|log| - 1], p, uid) + (if e.tid == p && e.stamp.Some? then [LineOf(e, uid)] else [])
  }

  /** The line of an access that is stamped and about to execute. */
  function Announced(st: Stage, uid: int): seq<Line> {
    if st.Ready? then [Line(st.time, uid, MemoryEvent(st.access, true))] else []
  }

  ghost predicate LinkedThread(s: State, p: Tid)
    requires p in s.control && p in s.core.store.threads
  {
    var st, uid := s.control[p].stage, s.core.store.threads[p].uid;
    && (st.Ready? ==> !st.access.stampedAfter)
    && (st.Executed? ==> st.access.stampedAfter)
    && (uid < 0 ==> st.Between? && forall e :: e in s.log ==> e.tid != p)
    && (uid >= 0 ==> ByUid(MemoryLines(s.core.store.emitted), uid) == ThreadLines(s.log, p, uid) + Announced(st, uid))
  }

  ghost predicate Linked(s: State) {
    && s.control.Keys == s.core.store.threads.Keys
    && (forall p :: p in s.control ==> LinkedThread(s, p))
    && (forall l :: l in MemoryLines(s.core.store.emitted) ==> l.uid >= 0)
  }

  // ----- ids never change once given -----

  lemma StepKeepsUids(cfg: Config, c: Core, l: CoreLabel)
    requires cfg.lag > 0 && CoreEnabled(cfg, c, l)
    ensures var t := CoreNext(cfg, c, l).store.threads;
            && c.store.threads.Keys <= t.Keys
            && (forall q :: q in c.store.threads && !(l.Join? && l.p == q) ==> t[q].uid == c.store.threads[q].uid)
            && (l.Begin? ==> l.p in t && t[l.p].uid == l.uid)
            && (l.Join? ==> t[l.p].uid == l.uid)
  {
    hide Touch, Broadcast, FlushOther, Insert, Erase;
    var s := c.store;
    match l
    case Local(p, time, e) => TouchClocks(cfg, s, p, Line(time, s.threads[p].uid, e), false);
    case FlushOne(p) => FlushOtherClocks(cfg, s, c.pending[p].others[0], c.pending[p].time);
    case Announce(p, e) => BroadcastRises(cfg, s, p, NextTime(s), e);
    case Join(p, uid) => BroadcastRises(cfg, Named(s, p, s.threads[p].(uid := uid)), p, NextTime(s), Register);
    case Begin(p, uid) => BroadcastRises(cfg, Named(s, p, ThreadData(uid, 0, [])), p, NextTime(s), Register);
    case End(p) => BroadcastRises(cfg, s, p, NextTime(s), Finish);
    case FlushEnter(p) =>
    case FlushLeave(p) =>
  }

  // ----- lines of a log -----

  lemma ThreadLinesSnoc(log: seq<Entry>, e: Entry, p: Tid, uid: int)
    ensures ThreadLines(log + [e], p, uid) ==
            ThreadLines(log, p, uid) + (if e.tid == p && e.stamp.Some? then [LineOf(e, uid)] else [])
  {
    assert (log + [e])[..|log|] == log;
  }

  /** Stamping the last access of a thread adds its line at the end; other threads do not notice. */
  lemma {:induction false} ThreadLinesStamp(log: seq<Entry>, at: nat, n: int, p: Tid, uid: int)
    requires at < |log| && log[at].stamp.None?
    requires log[at].tid == p ==> forall k :: at < k < |log| ==> log[k].tid != p
    ensures var stamped := log[at := log[at].(stamp := Some(n))];
            ThreadLines(stamped, p, uid) ==
            ThreadLines(log, p, uid) + (if log[at].tid == p then [LineOf(stamped[at], uid)] else [])
    decreases |log|
  {
    var stamped := log[at := log[at].(stamp := Some(n))];
    if at < |log| - 1 {
      assert stamped[..|log| - 1] == log[..|log| - 1][at := log[at].(stamp := Some(n))];
      ThreadLinesStamp(log[..|log| - 1], at, n, p, uid);
    } else {
      assert stamped[..|log| - 1] == log[..|log| - 1];
    }
  }

  lemma {:induction false} ThreadLinesNone(log: seq<Entry>, p: Tid, uid: int)
    requires forall e :: e in log ==> e.tid != p
    ensures ThreadLines(log, p, uid) == []
  {
    if log != [] {
      assert log == log[..|log| - 1] + [log[|log| - 1]];
      ThreadLinesNone(log[..|log| - 1], p, uid);
    }
  }

  lemma {:induction false} MemoryLinesIn(f: seq<Line>, l: Line)
    requires l in MemoryLines(f)
    ensures l in f && l.event.Memory?
  {
    assert f == f[..|f| - 1] + [f[|f| - 1]];
    if l in MemoryLines(f[..|f| - 1]) {
      MemoryLinesIn(f[..|f| - 1], l);
    }
  }

  // ----- steps -----

  /** Steps that emit no memory line, keep the log, and do not move a thread into or out of `Ready`. */
  lemma QuietLinks(s: State, t: State, p: Tid)
    requires Linked(s) && t.control.Keys == s.control.Keys && t.log == s.log && t.core == s.core
    requires p in s.control && p in s.core.store.threads && s.core.store.threads[p].uid >= 0
    requires !s.control[p].stage.Ready? && !t.control[p].stage.Ready? && !t.control[p].stage.Executed?
    requires forall q :: q in s.control && q != p ==> t.control[q] == s.control[q]
    ensures Linked(t)
  {
    forall q | q in t.control ensures LinkedThread(t, q) {
      assert LinkedThread(s, q);
    }
  }

  /** What both kinds of footers do to the emitted memory lines. */
  ghost predicate EmitsMemory(s: State, t: State, p: Tid, l: Line) {
    && p in s.control && p in s.core.store.threads && l.uid == s.core.store.threads[p].uid >= 0
    && t.core.store.threads.Keys == s.core.store.threads.Keys
    && (forall q :: q in s.core.store.threads ==> t.core.store.threads[q].uid == s.core.store.threads[q].uid)
    && MemoryLines(t.core.store.emitted) == MemoryLines(s.core.store.emitted) + [l]
  }

  lemma FooterEmits(cfg: Config, s: State, p: Tid)
    requires cfg.lag > 0 && Enabled(cfg, s, Footer(p))
    ensures var f := FooterLabel(s, p);
            EmitsMemory(s, Next(cfg, s, Footer(p)), p, Line(f.time, s.core.store.threads[p].uid, f.event))
  {
    var f := FooterLabel(s, p);
    StepMemoryLines(cfg, s.core, f);
    StepKeepsUids(cfg, s.core, f);
    StepMovesThreads(cfg, s.core, f);
  }

  lemma FooterBeforeLinks(s: State, t: State, p: Tid, n: int)
    requires Linked(s) && DistinctUids(s.core.store) && p in s.control && s.control[p].stage.Locking?
    requires !s.control[p].stage.access.stampedAfter && p in s.core.store.threads
    requires EmitsMemory(s, t, p, Line(n, s.core.store.threads[p].uid, MemoryEvent(s.control[p].stage.access, true)))
    requires t.control == s.control[p := Control(Ready(s.control[p].stage.access, n), s.control[p].held)]
    requires t.log == s.log
    ensures Linked(t)
  {
    var l := Line(n, s.core.store.threads[p].uid, MemoryEvent(s.control[p].stage.access, true));
    forall q | q in t.control ensures LinkedThread(t, q) {
      assert LinkedThread(s, q);
      OneMore(MemoryLines(s.core.store.emitted), l, s.core.store.threads[q].uid);
    }
  }

  /** The compare-and-swap of `p` at log entry `at` gets its stamp and its line. */
  ghost predicate StampsEntry(s: State, t: State, p: Tid, at: nat, n: int) {
    && p in s.control && s.control[p].stage.Executed? && s.control[p].stage.at == at < |s.log|
    && s.log[at].stamp.None? && s.log[at].tid == p
    && (forall k :: at < k < |s.log| ==> s.log[k].tid != p)
    && t.control == s.control[p := Control(Between, s.control[p].held)]
    && t.log == s.log[at := s.log[at].(stamp := Some(n))]
    && t.log[at].access.stampedAfter
  }

  lemma FooterAfterSelf(s: State, t: State, p: Tid, at: nat, n: int)
    requires StampsEntry(s, t, p, at, n) && p in s.core.store.threads && LinkedThread(s, p)
    requires s.core.store.threads[p].uid >= 0
    requires EmitsMemory(s, t, p, LineOf(t.log[at], s.core.store.threads[p].uid))
    ensures LinkedThread(t, p)
  {
    var uid := s.core.store.threads[p].uid;
    OneMore(MemoryLines(s.core.store.emitted), LineOf(t.log[at], uid), uid);
    ThreadLinesStamp(s.log, at, n, p, uid);
  }

  lemma FooterAfterElsewhere(s: State, t: State, p: Tid, at: nat, n: int, q: Tid)
    requires StampsEntry(s, t, p, at, n) && p in s.core.store.threads && DistinctUids(s.core.store)
    requires s.core.store.threads[p].uid >= 0
    requires EmitsMemory(s, t, p, LineOf(t.log[at], s.core.store.threads[p].uid))
    requires q in s.control && q in s.core.store.threads && q != p && LinkedThread(s, q)
    ensures LinkedThread(t, q)
  {
    var uid := s.core.store.threads[q].uid;
    OneMore(MemoryLines(s.core.store.emitted), LineOf(t.log[at], s.core.store.threads[p].uid), uid);
    ThreadLinesStamp(s.log, at, n, q, uid);
    assert forall e :: e in t.log ==> e in s.log || e == t.log[at];
  }

  lemma FooterAfterLinks(s: State, t: State, p: Tid, at: nat, n: int)
    requires Linked(s) && DistinctUids(s.core.store) && StampsEntry(s, t, p, at, n) && p in s.core.store.threads
    requires s.core.store.threads[p].uid >= 0
    requires EmitsMemory(s, t, p, LineOf(t.log[at], s.core.store.threads[p].uid))
    ensures Linked(t)
  {
    forall q | q in t.control ensures LinkedThread(t, q) {
      assert LinkedThread(s, q);
      if q == p {
        FooterAfterSelf(s, t, p, at, n);
      } else {
        FooterAfterElsewhere(s, t, p, at, n, q);
      }
    }
  }

  lemma FooterLinks(cfg: Config, s: State, p: Tid)
    requires AtomicInv(cfg, s) && Linked(s) && DistinctUids(s.core.store) && Enabled(cfg, s, Footer(p))
    ensures Linked(Next(cfg, s, Footer(p)))
  {
    FooterEmits(cfg, s, p);
    ThreadIsOk(cfg, s, p);
    assert ExecutedOk(cfg, s, p);
    hide CoreNext, CoreEnabled, AtomicInv, Linked, SeenOk, ReadyOk, EmitsMemory, MemoryLines, Locks;
    if s.control[p].stage.Locking? {
      FooterBeforeLinks(s, Next(cfg, s, Footer(p)), p, FooterLabel(s, p).time);
    } else {
      assert LinkedThread(s, p);
      FooterAfterLinks(s, Next(cfg, s, Footer(p)), p, s.control[p].stage.at, FooterLabel(s, p).time);
    }
  }

  lemma RunLinks(cfg: Config, s: State, p: Tid)
    requires AtomicInv(cfg, s) && Linked(s) && Enabled(cfg, s, Run(p))
    ensures Linked(Next(cfg, s, Run(p)))
  {
    var t := Next(cfg, s, Run(p));
    var e := t.log[|s.log|];
    assert t.log == s.log + [e];
    assert LinkedThread(s, p);
    RunLinkState(s, t, p, e);
  }

  lemma RunLinkState(s: State, t: State, p: Tid, e: Entry)
    requires Linked(s) && p in s.control && p in s.core.store.threads && s.core.store.threads[p].uid >= 0
    requires t.core == s.core && t.control.Keys == s.control.Keys && t.log == s.log + [e] && e.tid == p
    requires forall q :: q in s.control && q != p ==> t.control[q] == s.control[q]
    requires var st := s.control[p].stage;
             if st.Ready? then t.control[p].stage.Between? && e.access == st.access && e.stamp == Some(st.time)
             else st.Locking? && t.control[p].stage.Executed? && t.control[p].stage.access.stampedAfter && e.stamp.None?
    ensures Linked(t)
  {
    hide MemoryLines, ByUid, ThreadLines, LinkedThread;
    forall q | q in t.control ensures LinkedThread(t, q) {
      if q == p {
        RunLinkSelf(s, t, p, e);
      } else {
        RunLinkElsewhere(s, t, p, e, q);
      }
    }
  }

  lemma RunLinkSelf(s: State, t: State, p: Tid, e: Entry)
    requires p in s.control && p in s.core.store.threads && s.core.store.threads[p].uid >= 0 && LinkedThread(s, p)
    requires t.core == s.core && p in t.control && t.log == s.log + [e] && e.tid == p
    requires var st := s.control[p].stage;
             if st.Ready? then t.control[p].stage.Between? && e.access == st.access && e.stamp == Some(st.time)
             else st.Locking? && t.control[p].stage.Executed? && t.control[p].stage.access.stampedAfter && e.stamp.None?
    ensures LinkedThread(t, p)
  {
    hide MemoryLines, ByUid, ThreadLines;
    ThreadLinesSnoc(s.log, e, p, s.core.store.threads[p].uid);
  }

  lemma RunLinkElsewhere(s: State, t: State, p: Tid, e: Entry, q: Tid)
    requires q in s.control && q in s.core.store.threads && q != p && LinkedThread(s, q)
    requires t.core == s.core && q in t.control && t.control[q] == s.control[q] && t.log == s.log + [e] && e.tid == p
    ensures LinkedThread(t, q)
  {
    hide MemoryLines, ByUid, ThreadLines;
    var uid := s.core.store.threads[q].uid;
    ThreadLinesSnoc(s.log, e, q, uid);
    assert ThreadLines(s.log, q, uid) + [] == ThreadLines(s.log, q, uid);
  }

  lemma OtherLinks(cfg: Config, s: State, c: CoreLabel)
    requires AtomicInv(cfg, s) && Linked(s) && Streams(s.core.store) && Enabled(cfg, s, Other(c))
    ensures Linked(Next(cfg, s, Other(c)))
  {
    LogTidsKnown(cfg, s);
    OtherEffect(cfg, s, c);
    OtherIds(cfg, s, c);
    hide Next, Enabled, AtomicInv, Linked, LinkedThread, Streams, MemoryLines, Fresh, Unlinked;
    OtherLinkState(s, Next(cfg, s, Other(c)), c);
  }

  /** New ids are fresh, and given to threads that are between instructions. */
  lemma OtherIds(cfg: Config, s: State, c: CoreLabel)
    requires Linked(s) && Enabled(cfg, s, Other(c))
    ensures c.Begin? ==> c.p !in s.control && c.p !in s.core.store.threads
    ensures c.Begin? && c.uid >= 0 ==> Fresh(s.core.store, c.uid)
    ensures c.Join? ==> c.p in s.control && c.p in s.core.store.threads && Unlinked(s, c.p)
                        && c.uid >= 0 && Fresh(s.core.store, c.uid)
  {
    if c.Join? {
      assert LinkedThread(s, c.p);
    }
    hide ByUid, MemoryLines, ThreadLines;
  }

  lemma OtherMemory(cfg: Config, s: State, c: CoreLabel)
    requires Enabled(cfg, s, Other(c))
    ensures MemoryLines(CoreNext(cfg, s.core, c).store.emitted) == MemoryLines(s.core.store.emitted)
  {
    assert !(c.Local? && c.event.Memory?);
    hide CoreNext, CoreEnabled, Enabled, MemoryLines;
    StepMemoryLines(cfg, s.core, c);
  }

  lemma OtherEffect(cfg: Config, s: State, c: CoreLabel)
    requires cfg.lag > 0 && Enabled(cfg, s, Other(c))
    ensures var t := Next(cfg, s, Other(c));
            && t.log == s.log
            && MemoryLines(t.core.store.emitted) == MemoryLines(s.core.store.emitted)
            && t.core.store.threads.Keys == s.core.store.threads.Keys + (if c.Begin? then {c.p} else {})
            && t.control == (if c.Begin? then s.control[c.p := Control(Between, [])] else s.control)
            && (forall q :: q in s.core.store.threads && !(c.Join? && c.p == q) ==>
                  t.core.store.threads[q].uid == s.core.store.threads[q].uid)
            && (c.Begin? || c.Join? ==> c.p in t.core.store.threads && t.core.store.threads[c.p].uid == c.uid)
  {
    OtherShape(cfg, s, c);
    assert c.Join? ==> c.p in s.core.store.threads;
    hide Enabled, Next, CoreNext, CoreEnabled, MemoryLines, ClocksRise;
    OtherMemory(cfg, s, c);
    StepKeepsUids(cfg, s.core, c);
    StepMovesThreads(cfg, s.core, c);
  }

  /** Between instructions, nothing executed under its own name. */
  ghost predicate Unlinked(s: State, p: Tid)
    requires p in s.control
  {
    s.control[p].stage.Between? && forall e :: e in s.log ==> e.tid != p
  }

  lemma OtherLinkState(s: State, t: State, c: CoreLabel)
    requires Linked(s) && Streams(s.core.store) && t.log == s.log
    requires MemoryLines(t.core.store.emitted) == MemoryLines(s.core.store.emitted)
    requires t.core.store.threads.Keys == s.core.store.threads.Keys + (if c.Begin? then {c.p} else {})
    requires t.control == if c.Begin? then s.control[c.p := Control(Between, [])] else s.control
    requires forall q :: q in s.core.store.threads && !(c.Join? && c.p == q) ==>
               t.core.store.threads[q].uid == s.core.store.threads[q].uid
    requires c.Begin? ==> c.p !in s.control && t.core.store.threads[c.p].uid == c.uid
    requires c.Begin? && c.uid >= 0 ==> Fresh(s.core.store, c.uid)
    requires c.Join? ==> c.p in s.control && c.p in s.core.store.threads && Unlinked(s, c.p)
                         && t.core.store.threads[c.p].uid == c.uid && c.uid >= 0 && Fresh(s.core.store, c.uid)
    requires c.Begin? ==> forall e :: e in s.log ==> e.tid != c.p
    ensures Linked(t)
  {
    hide MemoryLines, ByUid, ThreadLines, LinkedThread, Streams, Fresh;
    forall q | q in t.control ensures LinkedThread(t, q) {
      if (c.Begin? || c.Join?) && c.p == q {
        NamedLinks(s, t, q, c.uid);
      } else {
        SameLinks(s, t, q);
      }
    }
  }

  /** A thread that a step leaves alone. */
  lemma SameLinks(s: State, t: State, q: Tid)
    requires q in s.control && q in s.core.store.threads && q in t.control && q in t.core.store.threads
    requires LinkedThread(s, q) && t.control[q] == s.control[q] && t.log == s.log
    requires t.core.store.threads[q].uid == s.core.store.threads[q].uid
    requires MemoryLines(t.core.store.emitted) == MemoryLines(s.core.store.emitted)
    ensures LinkedThread(t, q)
  {
    hide MemoryLines, ByUid, ThreadLines;
  }

  /** A thread that has just started, or just got its id: it executed nothing, and nothing stands under the id. */
  lemma NamedLinks(s: State, t: State, q: Tid, uid: int)
    requires Streams(s.core.store) && q in t.control && q in t.core.store.threads
    requires t.control[q].stage.Between? && t.log == s.log && (forall e :: e in s.log ==> e.tid != q)
    requires t.core.store.threads[q].uid == uid && (uid >= 0 ==> Fresh(s.core.store, uid))
    requires MemoryLines(t.core.store.emitted) == MemoryLines(s.core.store.emitted)
    ensures LinkedThread(t, q)
  {
    if uid >= 0 {
      NothingUnder(s, uid);
      ThreadLinesNone(s.log, q, uid);
    }
    hide MemoryLines, ByUid, ThreadLines, Streams, Fresh;
  }

  lemma NothingUnder(s: State, uid: int)
    requires Streams(s.core.store) && uid >= 0 && Fresh(s.core.store, uid)
    ensures ByUid(MemoryLines(s.core.store.emitted), uid) == []
  {
    forall l | l in MemoryLines(s.core.store.emitted) ensures l.uid != uid {
      MemoryLinesIn(s.core.store.emitted, l);
    }
    ByUidSame(MemoryLines(s.core.store.emitted), uid);
  }

  lemma LogTidsKnown(cfg: Config, s: State)
    requires AtomicInv(cfg, s)
    ensures forall e :: e in s.log ==> e.tid in s.control
  {
    forall e | e in s.log ensures e.tid in s.control {
      var k :| 0 <= k < |s.log| && s.log[k] == e;
      assert EntryOk(s, k);
    }
  }

  lemma HeaderLinks(cfg: Config, s: State, p: Tid, a: Access)
    requires Linked(s) && Enabled(cfg, s, Header(p, a))
    ensures Linked(Next(cfg, s, Header(p, a)))
  {
    QuietLinks(s, Next(cfg, s, Header(p, a)), p);
  }

  lemma LockLinks(cfg: Config, s: State, p: Tid)
    requires Linked(s) && Enabled(cfg, s, Lock(p))
    ensures Linked(Next(cfg, s, Lock(p)))
  {
    assert LinkedThread(s, p);
    QuietLinks(s, Next(cfg, s, Lock(p)), p);
  }

  lemma StepKeepsLinks(cfg: Config, s: State, l: Label)
    requires AtomicInv(cfg, s) && Linked(s) && Streams(s.core.store) && Enabled(cfg, s, l)
    ensures Linked(Next(cfg, s, l))
  {
    hide AtomicInv, Linked, Streams, DistinctUids;
    StreamsDistinct(s.core.store);
    match l
    case Header(p, a) => HeaderLinks(cfg, s, p, a);
    case Lock(p) => LockLinks(cfg, s, p);
    case Footer(p) => FooterLinks(cfg, s, p);
    case Run(p) => RunLinks(cfg, s, p);
    case Unlock(p) => UnlockLinks(s, Next(cfg, s, l), p);
    case Other(c) => OtherLinks(cfg, s, c);
  }

  lemma UnlockLinks(s: State, t: State, p: Tid)
    requires Linked(s) && t.log == s.log && t.core == s.core && p in s.control && s.control[p].stage.Between?
    requires t.control.Keys == s.control.Keys && t.control[p].stage.Between?
    requires forall q :: q in s.control && q != p ==> t.control[q] == s.control[q]
    ensures Linked(t)
  {
    forall q | q in t.control ensures LinkedThread(t, q) {
      assert LinkedThread(s, q);
    }
  }

  lemma {:induction false} RunKeepsLinks(cfg: Config, s: State, run: seq<Label>)
    requires AtomicInv(cfg, s) && Linked(s) && StreamInv(s.core) && ValidRun(cfg, s, run)
    ensures Linked(Final(cfg, s, run)) && StreamInv(Final(cfg, s, run).core)
    decreases |run|
  {
    if run != [] {
      StepIsAtomic(cfg, s, run[0]);
      StepKeepsLinks(cfg, s, run[0]);
      StepMovesCore(cfg, s, run[0]);
      var c := CoreStep(cfg, s, run[0]);
      if c.Some? {
        StepKeepsStreams(cfg, s.core, c.value);
      }
      RunKeepsLinks(cfg, Next(cfg, s, run[0]), run[1..]);
    }
  }

  // ----- the trace is a replay -----

  /** The lines of a fully stamped log, in execution order. */
  ghost function LogLines(log: seq<Entry>, threads: map<Tid, ThreadData>): (ls: seq<Line>)
    requires Stamped(log) && forall e :: e in log ==> e.tid in threads
    ensures |ls| == |log|
    ensures forall i :: 0 <= i < |log| ==> ls[i] == LineOf(log[i], threads[log[i].tid].uid)
  {
    if log == [] then []
    else
      assert forall e :: e in log[..|log| - 1] ==> e in log;
      LogLines(log[..|log| - 1], threads) + [LineOf(log[|log| - 1], threads[log[|log| - 1].tid].uid)]
  }

  lemma {:induction false} LogLinesByThread(log: seq<Entry>, threads: map<Tid, ThreadData>, p: Tid)
    requires Stamped(log) && forall e :: e in log ==> e.tid in threads
    requires p in threads && forall q :: q in threads && q != p ==> threads[q].uid != threads[p].uid
    ensures ByUid(LogLines(log, threads), threads[p].uid) == ThreadLines(log, p, threads[p].uid)
  {
    if log != [] {
      var before, e := log[..|log| - 1], log[|log| - 1];
      assert forall x :: x in before ==> x in log;
      LogLinesByThread(before, threads, p);
      assert LogLines(log, threads)[..|log| - 1] == LogLines(before, threads);
    }
  }

  lemma {:induction false} CountByUid(f: seq<Line>, l: Line)
    ensures multiset(f)[l] == multiset(ByUid(f, l.uid))[l]
  {
    if f != [] {
      assert f == f[..|f| - 1] + [f[|f| - 1]];
      CountByUid(f[..|f| - 1], l);
    }
  }

  lemma CountsAgree(s: State, p: Tid, l: Line)
    requires Linked(s) && Streams(s.core.store) && Stamped(s.log)
    requires forall e :: e in s.log ==> e.tid in s.core.store.threads
    requires p in s.control && p in s.core.store.threads && !s.control[p].stage.Ready?
    requires s.core.store.threads[p].uid == l.uid >= 0
    ensures multiset(MemoryLines(s.core.store.emitted))[l] == multiset(LogLines(s.log, s.core.store.threads))[l]
  {
    assert LinkedThread(s, p);
    assert ThreadLines(s.log, p, l.uid) + [] == ThreadLines(s.log, p, l.uid);
    hide MemoryLines, LogLines, ByUid, ThreadLines;
    CountByUid(MemoryLines(s.core.store.emitted), l);
    CountByUid(LogLines(s.log, s.core.store.threads), l);
    LogLinesByThread(s.log, s.core.store.threads, p);
  }

  /** The memory lines emitted are exactly the lines of the executed accesses. */
  lemma EmittedIsLog(cfg: Config, s: State)
    requires AtomicInv(cfg, s) && Linked(s) && Streams(s.core.store) && Stamped(s.log)
    requires forall p :: p in s.control ==> !s.control[p].stage.Ready?
    ensures forall e :: e in s.log ==> e.tid in s.core.store.threads
    ensures multiset(MemoryLines(s.core.store.emitted)) == multiset(LogLines(s.log, s.core.store.threads))
  {
    hide MemoryLines, LogLines, AtomicInv, Streams, Stamped, LinkedThread;
    LogTidsKnown(cfg, s);
    var em, ls := MemoryLines(s.core.store.emitted), LogLines(s.log, s.core.store.threads);
    forall l: Line ensures multiset(em)[l] == multiset(ls)[l] {
      CountsAgreeEverywhere(s, l);
    }
  }

  lemma CountsAgreeEverywhere(s: State, l: Line)
    requires Linked(s) && Streams(s.core.store) && Stamped(s.log)
    requires forall e :: e in s.log ==> e.tid in s.core.store.threads
    requires forall p :: p in s.control ==> !s.control[p].stage.Ready?
    ensures multiset(MemoryLines(s.core.store.emitted))[l] == multiset(LogLines(s.log, s.core.store.threads))[l]
  {
    assert s.control.Keys == s.core.store.threads.Keys;
    hide MemoryLines, LogLines, Linked, Streams, Stamped, Known;
    if l.uid >= 0 && Known(s.core.store, l.uid) {
      CountsAgreeAt(s, l);
    } else {
      MemoryLinesKnown(s);
      LogLinesKnown(s);
      assert l !in MemoryLines(s.core.store.emitted) && l !in LogLines(s.log, s.core.store.threads);
    }
  }

  lemma CountsAgreeAt(s: State, l: Line)
    requires Linked(s) && Streams(s.core.store) && Stamped(s.log) && s.control.Keys == s.core.store.threads.Keys
    requires forall e :: e in s.log ==> e.tid in s.core.store.threads
    requires forall p :: p in s.control ==> !s.control[p].stage.Ready?
    requires l.uid >= 0 && Known(s.core.store, l.uid)
    ensures multiset(MemoryLines(s.core.store.emitted))[l] == multiset(LogLines(s.log, s.core.store.threads))[l]
  {
    hide MemoryLines, LogLines, Linked, Streams, Stamped;
    var p :| p in s.core.store.threads && s.core.store.threads[p].uid == l.uid;
    CountsAgree(s, p, l);
  }

  lemma MemoryLinesKnown(s: State)
    requires Linked(s) && Streams(s.core.store)
    ensures forall l :: l in MemoryLines(s.core.store.emitted) ==> l.uid >= 0 && Known(s.core.store, l.uid)
  {
    forall l | l in MemoryLines(s.core.store.emitted) ensures Known(s.core.store, l.uid) {
      MemoryLinesIn(s.core.store.emitted, l);
    }
  }

  lemma LogLinesKnown(s: State)
    requires Linked(s) && Stamped(s.log) && forall e :: e in s.log ==> e.tid in s.core.store.threads
    ensures forall l :: l in LogLines(s.log, s.core.store.threads) ==> l.uid >= 0 && Known(s.core.store, l.uid)
  {
    var ls := LogLines(s.log, s.core.store.threads);
    forall l | l in ls ensures l.uid >= 0 && Known(s.core.store, l.uid) {
      var i :| 0 <= i < |ls| && ls[i] == l;
      assert s.log[i] in s.log;
      assert LinkedThread(s, s.log[i].tid);
    }
  }

  /** Line by line, `trace` shows the entries of `replay`. */
  ghost predicate Shows(trace: seq<Line>, replay: seq<Entry>, threads: map<Tid, ThreadData>) {
    && |replay| == |trace|
    && forall i :: 0 <= i < |trace| ==>
         replay[i].stamp.Some? && replay[i].tid in threads && trace[i] == LineOf(replay[i], threads[replay[i].tid].uid)
  }

  /** An arrangement of the lines of a log is an arrangement of the log. */
  lemma {:induction false} ArrangeLog(log: seq<Entry>, threads: map<Tid, ThreadData>, trace: seq<Line>)
    returns (replay: seq<Entry>)
    requires Stamped(log) && forall e :: e in log ==> e.tid in threads
    requires multiset(trace) == multiset(LogLines(log, threads))
    ensures multiset(replay) == multiset(log) && Stamped(replay)
    ensures forall e :: e in replay ==> e.tid in threads
    ensures Shows(trace, replay, threads)
    decreases |log|
  {
    var ls := LogLines(log, threads);
    SameLength(trace, ls);
    if trace == [] {
      replay := [];
    } else {
      var k := FindLine(trace, ls);
      LogLinesWithout(log, threads, k);
      TailOf(trace, ls, k);
      var rest := ArrangeLog(Without(log, k), threads, trace[1..]);
      ConsArrangement(log, threads, k, rest);
      replay := [log[k]] + rest;
      ConsShows(trace, log[k], rest, threads);
    }
  }

  lemma SameLength<T>(s: seq<T>, t: seq<T>)
    requires multiset(s) == multiset(t)
    ensures |s| == |t|
  {
    assert |multiset(s)| == |s| && |multiset(t)| == |t|;
  }

  lemma FindLine(trace: seq<Line>, ls: seq<Line>) returns (k: nat)
    requires multiset(trace) == multiset(ls) && trace != []
    ensures k < |ls| && ls[k] == trace[0]
  {
    assert trace[0] in multiset(ls);
    k :| 0 <= k < |ls| && ls[k] == trace[0];
  }

  lemma TailOf(trace: seq<Line>, ls: seq<Line>, k: nat)
    requires multiset(trace) == multiset(ls) && trace != [] && k < |ls| && ls[k] == trace[0]
    ensures multiset(trace[1..]) == multiset(ls) - multiset{ls[k]}
  {
    assert trace == [trace[0]] + trace[1..];
  }

  lemma ConsShows(trace: seq<Line>, e: Entry, rest: seq<Entry>, threads: map<Tid, ThreadData>)
    requires trace != [] && Shows(trace[1..], rest, threads)
    requires e.stamp.Some? && e.tid in threads && trace[0] == LineOf(e, threads[e.tid].uid)
    ensures Shows(trace, [e] + rest, threads)
  {
    assert forall i :: 1 <= i < |trace| ==> trace[i] == trace[1..][i - 1];
  }

  lemma ConsArrangement(log: seq<Entry>, threads: map<Tid, ThreadData>, k: nat, rest: seq<Entry>)
    requires Stamped(log) && k < |log| && forall e :: e in log ==> e.tid in threads
    requires multiset(rest) == multiset(Without(log, k)) && Stamped(rest) && forall e :: e in rest ==> e.tid in threads
    ensures multiset([log[k]] + rest) == multiset(log) && Stamped([log[k]] + rest)
    ensures forall e :: e in [log[k]] + rest ==> e.tid in threads
  {
    WithoutKeeps(log, k);
    assert multiset([log[k]] + rest) == multiset{log[k]} + multiset(rest);
    assert log[k] in multiset(log);
  }

  lemma LogLinesWithout(log: seq<Entry>, threads: map<Tid, ThreadData>, k: nat)
    requires Stamped(log) && k < |log| && forall e :: e in log ==> e.tid in threads
    ensures Stamped(Without(log, k)) && forall e :: e in Without(log, k) ==> e.tid in threads
    ensures multiset(LogLines(Without(log, k), threads))
            == multiset(LogLines(log, threads)) - multiset{LogLines(log, threads)[k]}
  {
    hide LogLines, LineOf, Without, Stamped;
    WithoutStamped(log, k);
    LinesOfWithout(log, threads, k);
    WithoutCounts(LogLines(log, threads), k);
  }

  lemma LinesOfWithout(log: seq<Entry>, threads: map<Tid, ThreadData>, k: nat)
    requires Stamped(log) && k < |log| && forall e :: e in log ==> e.tid in threads
    requires Stamped(Without(log, k)) && forall e :: e in Without(log, k) ==> e.tid in threads
    ensures LogLines(Without(log, k), threads) == Without(LogLines(log, threads), k)
  {
    hide LogLines, LineOf;
    var ls, lw := LogLines(log, threads), LogLines(Without(log, k), threads);
    forall i | 0 <= i < |lw| ensures lw[i] == Without(ls, k)[i] {
      assert Without(log, k)[i] == log[if i < k then i else i + 1];
    }
  }

  /**
    The trace reproduces the run. Once every executed access has its line and every line its access,
    take the memory lines that were emitted in any order of nondecreasing time: they are the lines
    of an arrangement of the executed accesses which, executed one at a time from the initial memory,
    reads what the real run read, ends in the memory of the real run, and touches every byte in its order.
  */
  lemma TraceReproducesRun(cfg: Config, m: Memory, run: seq<Label>, trace: seq<Line>) returns (replay: seq<Entry>)
    requires Sane(cfg) && ValidRun(cfg, Initial(cfg, m), run)
    requires var s := Final(cfg, Initial(cfg, m), run);
             && Stamped(s.log) && (forall p :: p in s.control ==> !s.control[p].stage.Ready?)
             && multiset(trace) == multiset(MemoryLines(s.core.store.emitted))
    requires forall i, j :: 0 <= i < j < |trace| ==> trace[i].time <= trace[j].time
    ensures var s := Final(cfg, Initial(cfg, m), run);
            && multiset(replay) == multiset(s.log) && Shows(trace, replay, s.core.store.threads)
            && Reproduces(m, replay) && RunFrom(m, replay) == s.memory && SameByteOrder(replay, s.log)
  {
    var s0, s := Initial(cfg, m), Final(cfg, Initial(cfg, m), run);
    InitialInv(cfg, m);
    RunIsAtomic(cfg, s0, run);
    RunKeepsLinks(cfg, s0, run);
    EmittedIsLog(cfg, s);
    hide AtomicInv, Linked, MemoryLines, LogLines, Stamped, RunFrom, Reproduces, SameByteOrder;
    replay := ArrangeLog(s.log, s.core.store.threads, trace);
    ReplayReproducesRun(cfg, m, run, replay);
  }
}
