/**
  What was emitted, in which order, and where it went: no line is lost, duplicated or reordered
  within a thread, and broadcasts separate the lines before them from the lines after them.
*/
module TracerEmission {
  import opened TraceLine
  import opened TraceOrder
  import opened TracerStore
  import opened TracerFile
  import opened TracerBroadcast
  import opened TracerCore

  /** The lines of one user thread, in order. */
  function ByUid(f: seq<Line>, u: int): seq<Line> {
    if f == [] then []
    else ByUid(f[..|f| - 1], u) + (if f[|f| - 1].uid == u then [f[|f| - 1]] else [])
  }

  lemma {:induction false} ByUidAppend(f: seq<Line>, g: seq<Line>, u: int)
    ensures ByUid(f + g, u) == ByUid(f, u) + ByUid(g, u)
    decreases |g|
  {
    if g == [] {
      assert f + g == f;
    } else {
      assert (f + g)[..|f + g| - 1] == f + g[..|g| - 1];
      ByUidAppend(f, g[..|g| - 1], u);
    }
  }

  lemma {:induction false} ByUidSame(f: seq<Line>, u: int)
    ensures (forall l :: l in f ==> l.uid == u) ==> ByUid(f, u) == f
    ensures (forall l :: l in f ==> l.uid != u) ==> ByUid(f, u) == []
  {
    if f != [] {
      ByUidSame(f[..|f| - 1], u);
      assert f == f[..|f| - 1] + [f[|f| - 1]];
    }
  }

  predicate AllOf(b: seq<Line>, u: int) {
    forall l :: l in b ==> l.uid == u
  }

  /** The file and then the thread's buffer hold exactly what it emitted, in order. */
  ghost predicate Intact(s: Store, p: Tid)
    requires p in s.threads
  {
    var t := s.threads[p];
    && AllOf(t.buffer, t.uid)
    && (if t.uid >= 0 then ByUid(s.file, t.uid) + t.buffer == ByUid(s.emitted, t.uid) else t.buffer == [])
  }

  ghost predicate Streams(s: Store) {
    && DistinctUids(s)
    && (forall p :: p in s.threads ==> Intact(s, p))
    && ByUid(s.file, -1) == ByUid(s.emitted, -1)
    && (forall l :: l in s.emitted || l in s.file ==> l.uid == -1 || Known(s, l.uid))
  }

  // ----- streams -----

  lemma StreamsSame(s: Store, t: Store)
    requires Streams(s) && t.threads.Keys == s.threads.Keys && t.file == s.file && t.emitted == s.emitted
    requires forall p :: p in s.threads ==>
               && t.threads[p].uid == s.threads[p].uid && t.threads[p].buffer == s.threads[p].buffer
               && t.threads[p].clock >= 0
    ensures Streams(t)
  {
    hide ByUid, Known;
    SameKnown(s, t);
    forall p | p in t.threads ensures Intact(t, p) {
      assert Intact(s, p);
    }
  }

  lemma EmittedIntact(s: Store, p: Tid, l: Line, q: Tid)
    requires p in s.threads && s.threads[p].uid == l.uid >= 0 && DistinctUids(s) && q in s.threads && Intact(s, q)
    ensures Intact(Emit(s, p, l), q)
  {
    hide ByUid;
    OneMore(s.emitted, l, s.threads[q].uid);
  }

  lemma EmitStreams(s: Store, p: Tid, l: Line)
    requires Streams(s) && p in s.threads && s.threads[p].uid == l.uid >= 0
    ensures Streams(Emit(s, p, l))
  {
    var t := Emit(s, p, l);
    assert Known(s, l.uid);
    hide ByUid, Known, Intact;
    SameKnown(s, t);
    forall q | q in t.threads ensures Intact(t, q) {
      EmittedIntact(s, p, l, q);
    }
    OneMore(s.emitted, l, -1);
  }

  lemma OneMore(f: seq<Line>, l: Line, u: int)
    ensures ByUid(f + [l], u) == ByUid(f, u) + (if l.uid == u then [l] else [])
  {
    assert (f + [l])[..|f|] == f;
  }

  lemma AppendBuffer(f: seq<Line>, b: seq<Line>, owner: int, u: int)
    requires AllOf(b, owner)
    ensures ByUid(f + b, u) == ByUid(f, u) + (if u == owner then b else [])
  {
    ByUidAppend(f, b, u);
    ByUidSame(b, u);
  }

  /** Threads that keep their ids keep them known. */
  lemma SameKnown(s: Store, t: Store)
    requires t.threads.Keys == s.threads.Keys
    requires forall q :: q in s.threads ==> t.threads[q].uid == s.threads[q].uid
    ensures forall u :: Known(s, u) <==> Known(t, u)
  {
    forall u ensures Known(s, u) <==> Known(t, u) {
      if Known(s, u) {
        var q :| q in s.threads && s.threads[q].uid == u;
        assert t.threads[q].uid == u;
      }
      if Known(t, u) {
        var q :| q in t.threads && t.threads[q].uid == u;
        assert s.threads[q].uid == u;
      }
    }
  }

  lemma WrittenIntact(s: Store, p: Tid, time: int, q: Tid)
    requires DistinctUids(s) && p in s.threads && q in s.threads && Intact(s, p) && Intact(s, q)
    ensures Intact(WriteOut(s, p, time), q)
  {
    hide ByUid, Insert, Erase;
    AppendBuffer(s.file, s.threads[p].buffer, s.threads[p].uid, s.threads[q].uid);
  }

  lemma WriteStreams(s: Store, p: Tid, time: int)
    requires Streams(s) && p in s.threads
    ensures Streams(WriteOut(s, p, time))
  {
    var t, b, owner := WriteOut(s, p, time), s.threads[p].buffer, s.threads[p].uid;
    assert Intact(s, p);
    hide ByUid, Insert, Erase, Known, Intact;
    SameKnown(s, t);
    forall q | q in t.threads ensures Intact(t, q) {
      WrittenIntact(s, p, time, q);
    }
    AppendBuffer(s.file, b, owner, -1);
    WrittenKnown(s, t, p);
  }

  lemma WrittenKnown(s: Store, t: Store, p: Tid)
    requires Streams(s) && p in s.threads && t.file == s.file + s.threads[p].buffer && t.emitted == s.emitted
    requires forall u :: Known(s, u) ==> Known(t, u)
    ensures forall l :: l in t.emitted || l in t.file ==> l.uid == -1 || Known(t, l.uid)
  {
    assert Known(s, s.threads[p].uid) && Intact(s, p);
    forall l | l in s.threads[p].buffer ensures Known(s, l.uid) {
      assert l.uid == s.threads[p].uid;
    }
  }

  lemma ClockStreams(s: Store, p: Tid, time: int)
    requires Streams(s) && p in s.threads && time >= 0
    ensures Streams(SetClock(s, p, time)) && p in SetClock(s, p, time).threads
  {
    hide ByUid;
    StreamsSame(s, SetClock(s, p, time));
  }

  lemma FlushOtherStreams(cfg: Config, s: Store, u: Tid, time: int)
    requires Streams(s) && s.live <= s.threads.Keys && time >= 0
    ensures Streams(FlushOther(cfg, s, u, time))
  {
    hide Streams, WriteOut, SetClock;
    if u in s.live && Lags(cfg, time - s.threads[u].clock) {
      var uid := s.threads[u].uid;
      var e := if uid >= 0 then Emit(s, u, Line(time, uid, Sync)) else s;
      if uid >= 0 {
        EmitStreams(s, u, Line(time, uid, Sync));
      }
      ClockStreams(e, u, time);
      WriteStreams(SetClock(e, u, time), u, time);
    }
  }

  lemma {:induction false} FlushOthersStreams(cfg: Config, s: Store, us: seq<Tid>, time: int)
    requires Streams(s) && s.live <= s.threads.Keys && time >= 0
    ensures Streams(FlushOthers(cfg, s, us, time))
    decreases |us|
  {
    if us != [] {
      FlushOthersStreams(cfg, s, us[..|us| - 1], time);
      FlushOtherStreams(cfg, FlushOthers(cfg, s, us[..|us| - 1], time), us[|us| - 1], time);
    }
  }

  lemma TouchStreams(cfg: Config, s: Store, p: Tid, l: Line, force: bool)
    requires Streams(s) && p in s.threads && s.threads[p].uid == l.uid >= 0 && l.time >= 0
    ensures Streams(Touch(cfg, Emit(s, p, l), p, l.time, force).store)
  {
    hide Insert, Erase, ByUid, Recheck;
    var e := Emit(s, p, l);
    EmitStreams(s, p, l);
    ClockStreams(e, p, l.time);
    var w := WriteOut(SetClock(e, p, l.time), p, l.time);
    WriteStreams(SetClock(e, p, l.time), p, l.time);
    var t := Touch(cfg, e, p, l.time, force).store;
    if t.file == w.file && t.threads == w.threads {
      StreamsSame(w, t);
    }
  }

  /** The line of an unregistered thread goes straight to the file. */
  lemma SilentStreams(cfg: Config, s: Store, p: Tid, l: Line)
    requires Streams(s) && p in s.threads && s.threads[p].uid == l.uid == -1 && l.time >= 0
    ensures Streams(OwnLine(cfg, s, p, l))
  {
    var t := OwnLine(cfg, s, p, l);
    OwnLineFields(cfg, s, p, l);
    assert t.file == s.file + [l];
    hide OwnLine;
    SilentState(s, t, p, l);
  }

  lemma SilentState(s: Store, t: Store, p: Tid, l: Line)
    requires Streams(s) && p in s.threads && s.threads[p].uid == l.uid == -1 && l.time >= 0
    requires t.threads == s.threads[p := ThreadData(-1, l.time, [])]
    requires t.file == s.file + [l] && t.emitted == s.emitted + [l]
    ensures Streams(t)
  {
    hide ByUid;
    SameKnown(s, t);
    assert Intact(s, p);
    forall q | q in t.threads ensures Intact(t, q) {
      assert Intact(s, q);
      OneMore(s.file, l, t.threads[q].uid);
      OneMore(s.emitted, l, t.threads[q].uid);
    }
    OneMore(s.file, l, -1);
    OneMore(s.emitted, l, -1);
  }

  lemma BroadcastStreams(cfg: Config, s: Store, p: Tid, n: int, e: Event)
    requires Streams(s) && p in s.threads && s.live <= s.threads.Keys && n >= 0 && s.threads[p].uid >= -1
    ensures Streams(Broadcast(cfg, s, p, n, e))
  {
    var l := Line(n, s.threads[p].uid, e);
    if l.uid >= 0 {
      TouchStreams(cfg, s, p, l, true);
    } else {
      SilentStreams(cfg, s, p, l);
    }
    var t := Touch(cfg, Emit(s, p, l), p, n, true);
    assert t.store.live == s.live && t.store.threads.Keys == s.threads.Keys;
    hide Streams, Touch, FlushOthers, SetClocks;
    FlushOthersStreams(cfg, t.store, t.others, n);
    SetClocksStreams(FlushOthers(cfg, t.store, t.others, n), s.live, n);
  }

  lemma SetClocksStreams(s: Store, ps: set<Tid>, n: int)
    requires Streams(s) && ps <= s.threads.Keys && n >= 0
    ensures Streams(SetClocks(s, ps, n))
  {
    StreamsSame(s, SetClocks(s, ps, n));
  }

  /** A thread takes an id under which nothing was emitted yet. */
  lemma NamedStreams(s: Store, p: Tid, uid: int, clock: int)
    requires Streams(s) && uid >= -1 && clock >= 0 && (uid >= 0 ==> Fresh(s, uid))
    requires p in s.threads ==> s.threads[p].uid < 0
    ensures Streams(Named(s, p, ThreadData(uid, clock, [])))
  {
    var t := Named(s, p, ThreadData(uid, clock, []));
    hide ByUid;
    forall l | l in t.emitted || l in t.file ensures l.uid == -1 || Known(t, l.uid) {
      if l.uid != -1 {
        var q :| q in s.threads && s.threads[q].uid == l.uid;
        assert q != p && t.threads[q].uid == l.uid;
      }
    }
    if uid >= 0 {
      NothingUnderFresh(s, uid);
    }
  }

  lemma NothingUnderFresh(s: Store, uid: int)
    requires Streams(s) && uid >= 0 && Fresh(s, uid)
    ensures ByUid(s.file, uid) == [] && ByUid(s.emitted, uid) == []
  {
    assert forall l :: l in s.emitted || l in s.file ==> l.uid != uid;
    ByUidSame(s.file, uid);
    ByUidSame(s.emitted, uid);
  }

  ghost predicate StreamInv(c: Core) {
    Streams(c.store) && forall p :: p in c.pending ==> c.pending[p].time >= 0
  }

  lemma EndStreams(cfg: Config, s: Store, p: Tid, n: int)
    requires Streams(s) && p in s.threads && s.live <= s.threads.Keys && n >= 0
    ensures Streams(FinishThread(cfg, s, p, n))
  {
    if s.threads[p].uid >= 0 {
      BroadcastStreams(cfg, s, p, n, Finish);
    }
    var t := if s.threads[p].uid >= 0 then Broadcast(cfg, s, p, n, Finish) else s;
    var gone := t.(live := t.live - {p});
    StreamsSame(t, gone);
    WriteStreams(gone, p, 0);
    if gone.threads[p].buffer != [] {
      StreamsSame(WriteOut(gone, p, 0), FinishThread(cfg, s, p, n));
    }
  }

  lemma BeginStreams(cfg: Config, s: Store, p: Tid, uid: int, n: int)
    requires Streams(s) && p !in s.threads && s.live <= s.threads.Keys && n >= 0 && uid >= -1
    requires uid >= 0 ==> Fresh(s, uid)
    ensures Streams(StartThread(cfg, s, p, uid, n))
  {
    var born := Named(s, p, ThreadData(uid, 0, []));
    NamedStreams(s, p, uid, 0);
    BroadcastStreams(cfg, born, p, n, Register);
    var t := if cfg.registerThreads then born else Broadcast(cfg, born, p, n, Register);
    StreamsSame(t, StartThread(cfg, s, p, uid, n));
  }

  lemma JoinStreams(cfg: Config, s: Store, p: Tid, uid: int, n: int)
    requires Streams(s) && p in s.threads && s.live <= s.threads.Keys && n >= 0 && uid >= 0 && Fresh(s, uid)
    requires s.threads[p].uid == -1
    ensures Streams(RegisterThread(cfg, s, p, uid, n))
  {
    var b := Named(s, p, ThreadData(uid, s.threads[p].clock, []));
    assert s.threads[p].buffer == [];
    NamedStreams(s, p, uid, s.threads[p].clock);
    BroadcastStreams(cfg, b, p, n, Register);
    assert s.threads[p].(uid := uid) == ThreadData(uid, s.threads[p].clock, []);
  }

  lemma StreamsDistinct(s: Store)
    requires Streams(s)
    ensures DistinctUids(s)
  {
  }

  lemma StepKeepsStreams(cfg: Config, c: Core, l: CoreLabel)
    requires StreamInv(c) && CoreEnabled(cfg, c, l)
    ensures StreamInv(CoreNext(cfg, c, l))
  {
    hide Streams, Touch, FlushOther, Broadcast;
    StreamsDistinct(c.store);
    var s := c.store;
    match l
    case Local(p, time, e) => TouchStreams(cfg, s, p, Line(time, s.threads[p].uid, e), false);
    case FlushEnter(p) =>
    case FlushOne(p) => FlushOtherStreams(cfg, s, c.pending[p].others[0], c.pending[p].time);
    case FlushLeave(p) =>
    case Announce(p, e) => BroadcastStreams(cfg, s, p, NextTime(s), e);
    case Join(p, uid) => JoinStreams(cfg, s, p, uid, NextTime(s));
    case Begin(p, uid) => BeginStreams(cfg, s, p, uid, NextTime(s));
    case End(p) => EndStreams(cfg, s, p, NextTime(s));
  }

  // ----- the order of emission -----

  /** Lines emitted while all threads are held. */
  predicate IsGlobal(l: Line) {
    l.uid == -1 || l.event.Register? || l.event.Finish? || l.event.StartRoi? || l.event.EndRoi?
  }

  /**
    A broadcast's line is above everything emitted before it and below everything emitted later, save
    syncs at its own time.
  */
  ghost predicate Separated(em: seq<Line>) {
    forall i, j :: 0 <= i < j < |em| ==>
      && (IsGlobal(em[j]) ==> em[i].time < em[j].time)
      && (IsGlobal(em[i]) ==> em[i].time < em[j].time || (em[j].event.Sync? && em[j].time == em[i].time))
  }

  /** Every live registered thread's clock has reached every broadcast. */
  ghost predicate GlobalsReached(s: Store) {
    forall p, l :: p in s.live && p in s.threads && s.threads[p].uid >= 0 && l in s.emitted && IsGlobal(l) ==>
      l.time <= s.threads[p].clock
  }

  ghost predicate OrderInv(s: Store) {
    Separated(s.emitted) && GlobalsReached(s)
  }

  lemma SeparatedSnoc(em: seq<Line>, l: Line)
    requires Separated(em)
    requires if IsGlobal(l) then forall x :: x in em ==> x.time < l.time
             else forall g :: g in em && IsGlobal(g) ==> g.time < l.time || (l.event.Sync? && g.time == l.time)
    ensures Separated(em + [l])
  {
  }

  /** Nothing was ever emitted above both the file and the live clocks. */
  lemma EmittedBelow(s: Store, l: Line)
    requires FileInv(s, s.live) && Streams(s) && Anchored(s) && l in s.emitted
    ensures l.time < NextTime(s)
  {
    InByUid(s.emitted, l);
    if l.uid == -1 {
      FromByUid(s.file, l, -1);
      FileBelow(s.file, l);
    } else {
      assert Known(s, l.uid);
      var p :| p in s.threads && s.threads[p].uid == l.uid;
      assert BufferOk(s, s.live, p);
      if l in s.threads[p].buffer {
        var i :| 0 <= i < |s.threads[p].buffer| && s.threads[p].buffer[i] == l;
        RunBelow(Heads(s.threads[p].buffer), l.uid, Active(Heads(s.file))[l.uid], i);
      } else {
        FromByUid(s.file, l, l.uid);
        FileBelow(s.file, l);
      }
    }
  }

  lemma FileBelow(f: seq<Line>, l: Line)
    requires l in f
    ensures l.time <= Top(Heads(f))
  {
    TopIsMaximum(Heads(f));
    var i :| 0 <= i < |f| && f[i] == l;
    assert Heads(f)[i] in Heads(f);
  }

  lemma {:induction false} RunBelow(b: seq<Head>, uid: int, after: int, i: nat)
    requires Run(b, uid, after) && i < |b|
    ensures b[i].time <= LastTime(b, after)
    decreases |b|
  {
    if i > 0 {
      RunBelow(b[1..], uid, b[0].time, i - 1);
      assert LastTime(b[1..], b[0].time) == LastTime(b, after);
    } else if |b| > 1 {
      RunBelow(b[1..], uid, b[0].time, 0);
      assert b[1..][0].time > b[0].time;
      assert LastTime(b[1..], b[0].time) == LastTime(b, after);
    }
  }

  lemma {:induction false} InByUid(f: seq<Line>, l: Line)
    requires l in f
    ensures l in ByUid(f, l.uid)
  {
    if f[|f| - 1] != l {
      assert f == f[..|f| - 1] + [f[|f| - 1]];
      InByUid(f[..|f| - 1], l);
    }
  }

  lemma {:induction false} FromByUid(f: seq<Line>, l: Line, u: int)
    requires l in ByUid(f, u)
    ensures l in f && l.uid == u
  {
    assert f == f[..|f| - 1] + [f[|f| - 1]];
    if l in ByUid(f[..|f| - 1], u) {
      FromByUid(f[..|f| - 1], l, u);
    }
  }

  lemma FlushOtherOrder(cfg: Config, s: Store, u: Tid, time: int)
    requires cfg.lag > 0 && s.live <= s.threads.Keys && Separated(s.emitted)
    requires u in s.live && s.threads[u].uid >= 0 && Lags(cfg, time - s.threads[u].clock) ==>
               forall g :: g in s.emitted && IsGlobal(g) ==> g.time <= time
    ensures var t := FlushOther(cfg, s, u, time);
            Separated(t.emitted) && forall g :: g in t.emitted && IsGlobal(g) ==> g in s.emitted
  {
    if u in s.live && s.threads[u].uid >= 0 && Lags(cfg, time - s.threads[u].clock) {
      SeparatedSnoc(s.emitted, Line(time, s.threads[u].uid, Sync));
    }
  }

  lemma {:induction false} FlushOthersOrder(cfg: Config, s: Store, us: seq<Tid>, time: int)
    requires cfg.lag > 0 && s.live <= s.threads.Keys && Separated(s.emitted)
    requires forall g :: g in s.emitted && IsGlobal(g) ==> g.time <= time
    ensures var t := FlushOthers(cfg, s, us, time);
            Separated(t.emitted) && forall g :: g in t.emitted && IsGlobal(g) ==> g in s.emitted
    decreases |us|
  {
    if us != [] {
      FlushOthersOrder(cfg, s, us[..|us| - 1], time);
      FlushOtherOrder(cfg, FlushOthers(cfg, s, us[..|us| - 1], time), us[|us| - 1], time);
    }
  }

  lemma BroadcastOrder(cfg: Config, s: Store, p: Tid, n: int, e: Event)
    requires cfg.lag > 0 && s.live <= s.threads.Keys && p in s.threads && Separated(s.emitted)
    requires forall l :: l in s.emitted ==> l.time < n
    ensures var t := Broadcast(cfg, s, p, n, e);
            Separated(t.emitted) && forall g :: g in t.emitted && IsGlobal(g) ==> g.time <= n
  {
    var l := Line(n, s.threads[p].uid, e);
    OwnLineFields(cfg, s, p, l);
    SeparatedSnoc(s.emitted, l);
    var t := Touch(cfg, Emit(s, p, l), p, n, true);
    FlushOthersOrder(cfg, t.store, t.others, n);
  }

  lemma SynchronisedOrder(s: Store, t: Store, n: int)
    requires Synchronised(s, t, n) && Separated(t.emitted)
    requires forall g :: g in t.emitted && IsGlobal(g) ==> g.time <= n
    ensures OrderInv(t)
  {
  }

  lemma LocalOrder(cfg: Config, c: Core, p: Tid, time: int, e: Event)
    requires cfg.lag > 0 && OrderInv(c.store) && CoreEnabled(cfg, c, Local(p, time, e))
    requires e.Memory? || e.Call? || e.Return? || e.ContextChange?
    ensures OrderInv(CoreNext(cfg, c, Local(p, time, e)).store)
  {
    var l := Line(time, c.store.threads[p].uid, e);
    SeparatedSnoc(c.store.emitted, l);
    TouchClocks(cfg, c.store, p, l, false);
    var t := CoreNext(cfg, c, Local(p, time, e)).store;
    assert t.emitted == c.store.emitted + [l];
  }

  lemma FlushOneOrder(cfg: Config, c: Core, p: Tid)
    requires cfg.lag > 0 && OrderInv(c.store) && CoreEnabled(cfg, c, FlushOne(p))
    ensures OrderInv(CoreNext(cfg, c, FlushOne(p)).store)
  {
    FlushOtherOrder(cfg, c.store, c.pending[p].others[0], c.pending[p].time);
    FlushOtherClocks(cfg, c.store, c.pending[p].others[0], c.pending[p].time);
  }

  /** The events that reach a buffer in a local step of the whole tracer. */
  predicate LocalEvent(l: CoreLabel) {
    l.Local? ==> l.event.Memory? || l.event.Call? || l.event.Return? || l.event.ContextChange?
  }

  lemma EverythingBelow(s: Store)
    requires FileInv(s, s.live) && Streams(s) && Anchored(s)
    ensures forall l :: l in s.emitted ==> l.time < NextTime(s)
  {
    forall l | l in s.emitted ensures l.time < NextTime(s) {
      EmittedBelow(s, l);
    }
  }

  lemma AnnounceOrder(cfg: Config, c: Core, p: Tid, e: Event)
    requires cfg.lag > 0 && CoreInv(c) && Streams(c.store) && OrderInv(c.store) && Anchored(c.store)
    requires CoreEnabled(cfg, c, Announce(p, e))
    ensures OrderInv(CoreNext(cfg, c, Announce(p, e)).store)
  {
    var s, n := c.store, NextTime(c.store);
    EverythingBelow(s);
    AnnounceKeeps(cfg, s, p, e);
    BroadcastOrder(cfg, s, p, n, e);
    SynchronisedOrder(s, CoreNext(cfg, c, Announce(p, e)).store, n);
  }

  lemma JoinOrder(cfg: Config, c: Core, p: Tid, uid: int)
    requires cfg.lag > 0 && CoreInv(c) && Streams(c.store) && OrderInv(c.store) && Anchored(c.store)
    requires CoreEnabled(cfg, c, Join(p, uid))
    ensures OrderInv(CoreNext(cfg, c, Join(p, uid)).store)
  {
    var s, n := c.store, NextTime(c.store);
    EverythingBelow(s);
    JoinKeeps(cfg, s, p, uid);
    BroadcastOrder(cfg, Named(s, p, s.threads[p].(uid := uid)), p, n, Register);
    SynchronisedOrder(s, CoreNext(cfg, c, Join(p, uid)).store, n);
  }

  lemma BeginOrder(cfg: Config, c: Core, p: Tid, uid: int)
    requires cfg.lag > 0 && CoreInv(c) && Streams(c.store) && OrderInv(c.store) && CoreEnabled(cfg, c, Begin(p, uid))
    requires !cfg.registerThreads ==> Anchored(c.store)
    ensures OrderInv(CoreNext(cfg, c, Begin(p, uid)).store)
  {
    var s, n := c.store, NextTime(c.store);
    if !cfg.registerThreads {
      EverythingBelow(s);
      BeginKeeps(cfg, s, p, uid);
      BroadcastOrder(cfg, Named(s, p, ThreadData(uid, 0, [])), p, n, Register);
      SynchronisedOrder(s, CoreNext(cfg, c, Begin(p, uid)).store, n);
    }
  }

  lemma EndOrder(cfg: Config, c: Core, p: Tid)
    requires cfg.lag > 0 && CoreInv(c) && Streams(c.store) && OrderInv(c.store) && CoreEnabled(cfg, c, End(p))
    requires c.store.threads[p].uid >= 0 ==> Anchored(c.store)
    ensures OrderInv(CoreNext(cfg, c, End(p)).store)
  {
    var s, n := c.store, NextTime(c.store);
    EndKeeps(cfg, s, p);
    if s.threads[p].uid >= 0 {
      EverythingBelow(s);
      BroadcastOrder(cfg, s, p, n, Finish);
      SynchronisedOrder(s, CoreNext(cfg, c, End(p)).store, n);
    }
  }

  lemma StepKeepsOrder(cfg: Config, c: Core, l: CoreLabel)
    requires cfg.lag > 0 && CoreInv(c) && Streams(c.store) && OrderInv(c.store)
    requires CoreEnabled(cfg, c, l) && LocalEvent(l)
    requires IsBroadcast(cfg, c, l) ==> Anchored(c.store)
    ensures OrderInv(CoreNext(cfg, c, l).store)
  {
    match l
    case Local(p, time, e) => LocalOrder(cfg, c, p, time, e);
    case FlushEnter(p) =>
    case FlushOne(p) => FlushOneOrder(cfg, c, p);
    case FlushLeave(p) =>
    case Announce(p, e) => AnnounceOrder(cfg, c, p, e);
    case Join(p, uid) => JoinOrder(cfg, c, p, uid);
    case Begin(p, uid) => BeginOrder(cfg, c, p, uid);
    case End(p) => EndOrder(cfg, c, p);
  }

  // ----- memory lines -----

  lemma {:induction false} FlushOthersNoMemory(cfg: Config, s: Store, us: seq<Tid>, time: int)
    requires s.live <= s.threads.Keys
    ensures MemoryLines(FlushOthers(cfg, s, us, time).emitted) == MemoryLines(s.emitted)
    decreases |us|
  {
    if us != [] {
      FlushOthersNoMemory(cfg, s, us[..|us| - 1], time);
      FlushOtherNoMemory(cfg, FlushOthers(cfg, s, us[..|us| - 1], time), us[|us| - 1], time);
    }
  }

  lemma FlushOtherNoMemory(cfg: Config, s: Store, u: Tid, time: int)
    requires s.live <= s.threads.Keys
    ensures MemoryLines(FlushOther(cfg, s, u, time).emitted) == MemoryLines(s.emitted)
  {
    if u in s.live {
      MemorySnoc(s.emitted, Line(time, s.threads[u].uid, Sync));
    }
  }

  lemma BroadcastNoMemory(cfg: Config, s: Store, p: Tid, n: int, e: Event)
    requires p in s.threads && s.live <= s.threads.Keys && !e.Memory?
    ensures MemoryLines(Broadcast(cfg, s, p, n, e).emitted) == MemoryLines(s.emitted)
  {
    var l := Line(n, s.threads[p].uid, e);
    OwnLineFields(cfg, s, p, l);
    MemorySnoc(s.emitted, l);
    var t := Touch(cfg, Emit(s, p, l), p, n, true);
    FlushOthersNoMemory(cfg, t.store, t.others, n);
  }

  /** A step emits a memory line only where it traces a memory access, and then exactly that line. */
  lemma StepMemoryLines(cfg: Config, c: Core, l: CoreLabel)
    requires CoreEnabled(cfg, c, l)
    ensures MemoryLines(CoreNext(cfg, c, l).store.emitted) == MemoryLines(c.store.emitted) +
              (if l.Local? && l.event.Memory? then [Line(l.time, c.store.threads[l.p].uid, l.event)] else [])
  {
    var s := c.store;
    match l
    case Local(p, time, e) =>
      MemorySnoc(s.emitted, Line(time, s.threads[p].uid, e));
      assert CoreNext(cfg, c, l).store.emitted == s.emitted + [Line(time, s.threads[p].uid, e)];
    case FlushOne(p) => FlushOtherNoMemory(cfg, s, c.pending[p].others[0], c.pending[p].time);
    case Announce(p, e) => BroadcastNoMemory(cfg, s, p, NextTime(s), e);
    case Join(p, uid) => BroadcastNoMemory(cfg, Named(s, p, s.threads[p].(uid := uid)), p, NextTime(s), Register);
    case Begin(p, uid) => BroadcastNoMemory(cfg, Named(s, p, ThreadData(uid, 0, [])), p, NextTime(s), Register);
    case End(p) => BroadcastNoMemory(cfg, s, p, NextTime(s), Finish);
    case FlushEnter(p) =>
    case FlushLeave(p) =>
  }
}
