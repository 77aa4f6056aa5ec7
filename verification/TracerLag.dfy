/**
  How far a live registered thread's clock can lag behind a thread that flushes: the last-flushed
  table, its cache, and the flushes still in progress bound it by 1.75 times the allowed difference.
*/
module TracerLag {
  import opened TraceLine
  import opened TraceOrder
  import opened TracerStore
  import opened TracerFile
  import opened TracerBroadcast
  import opened TracerCore

  predicate Sorted(lf: seq<Flushed>) {
    forall i, j :: 0 <= i < j < |lf| ==> lf[i].time <= lf[j].time
  }

  // ----- the table -----

  lemma {:induction false} EraseRows(lf: seq<Flushed>, p: Tid)
    ensures forall e :: e in Erase(lf, p) <==> e in lf && e.tid != p
    ensures Sorted(lf) ==> Sorted(Erase(lf, p))
  {
    if lf != [] {
      EraseRows(lf[1..], p);
      assert forall e :: e in lf <==> e == lf[0] || e in lf[1..];
      var rest := Erase(lf[1..], p);
      if Sorted(lf) && lf[0].tid != p {
        assert forall i :: 0 <= i < |rest| ==> rest[i] in lf[1..];
      }
    }
  }

  lemma {:induction false} InsertRows(lf: seq<Flushed>, e: Flushed)
    ensures forall x :: x in InsertSorted(lf, e) <==> x in lf || x == e
    ensures Sorted(lf) ==> Sorted(InsertSorted(lf, e))
  {
    if lf != [] && lf[0].time <= e.time {
      InsertRows(lf[1..], e);
      assert forall x :: x in lf <==> x == lf[0] || x in lf[1..];
      var rest := InsertSorted(lf[1..], e);
      assert forall i :: 0 <= i < |rest| ==> rest[i] in lf[1..] || rest[i] == e;
    }
  }

  /** A new row goes behind all rows that are as old. */
  lemma {:induction false} InsertPlace(lf: seq<Flushed>, e: Flushed) returns (k: nat)
    requires Sorted(lf)
    ensures k <= |lf| && InsertSorted(lf, e) == lf[..k] + [e] + lf[k..]
    ensures forall i :: 0 <= i < |lf| ==> (i < k <==> lf[i].time <= e.time)
  {
    if lf != [] && lf[0].time <= e.time {
      k := InsertPlace(lf[1..], e);
      assert lf == [lf[0]] + lf[1..];
      k := k + 1;
    } else {
      k := 0;
    }
  }

  /** Replacing a thread's row. */
  lemma ReplaceRow(lf: seq<Flushed>, p: Tid, time: int)
    ensures var r := Insert(Erase(lf, p), p, time);
            && (forall e :: e in r <==> (e in lf && e.tid != p) || e == Flushed(time, p))
            && (Sorted(lf) ==> Sorted(r))
  {
    EraseRows(lf, p);
    InsertRows(Erase(lf, p), Flushed(time, p));
    assert !HasTid(Erase(lf, p), p) by {
      if i :| 0 <= i < |Erase(lf, p)| && Erase(lf, p)[i].tid == p {
        assert Erase(lf, p)[i] in Erase(lf, p);
        assert false;
      }
    }
  }

  ghost predicate HasRow(lf: seq<Flushed>, u: Tid) {
    exists e :: e in lf && e.tid == u
  }

  /** Rows are in order and never ahead of their thread's clock, and each live thread has one. */
  ghost predicate RowsOk(s: Store) {
    && s.live <= s.threads.Keys
    && Sorted(s.lastFlushed)
    && (forall e :: e in s.lastFlushed ==> e.tid in s.threads && e.time <= s.threads[e.tid].clock)
    && (forall u :: u in s.live ==> HasRow(s.lastFlushed, u))
  }

  /** Rows and cache are never ahead of the file. */
  ghost predicate TopsOk(s: Store) {
    && (forall e :: e in s.lastFlushed ==> e.time <= Top(Heads(s.file)))
    && s.cache <= Top(Heads(s.file))
  }

  ghost predicate TableOk(s: Store) {
    RowsOk(s) && TopsOk(s)
  }

  lemma TopAppend(f: seq<Line>, g: seq<Line>)
    ensures Top(Heads(f)) <= Top(Heads(f + g))
    ensures g != [] ==> g[|g| - 1].time <= Top(Heads(f + g))
  {
    var hs := Heads(f + g);
    HeadsAppend(f, g);
    TopIsMaximum(hs);
    TopIsMaximum(Heads(f));
    if Top(Heads(f)) > 0 {
      var h :| h in Heads(f) && h.time == Top(Heads(f));
      assert h in hs;
    }
    if g != [] {
      assert hs[|f| + |g| - 1] in hs;
      assert hs[|f| + |g| - 1] == HeadOf(g[|g| - 1]);
    }
  }

  /** Clocks rise, threads leave, nothing else. */
  lemma RowsMayRise(s: Store, t: Store)
    requires RowsOk(s) && t.threads.Keys == s.threads.Keys && t.live <= s.live && t.lastFlushed == s.lastFlushed
    requires forall q :: q in s.threads ==> s.threads[q].clock <= t.threads[q].clock
    ensures RowsOk(t)
  {
  }

  lemma TableMayRise(s: Store, t: Store)
    requires TableOk(s) && t.threads.Keys == s.threads.Keys && t.live <= s.live
    requires t.file == s.file && t.lastFlushed == s.lastFlushed && t.cache <= Top(Heads(s.file))
    requires forall q :: q in s.threads ==> s.threads[q].clock <= t.threads[q].clock
    ensures TableOk(t)
  {
    RowsMayRise(s, t);
  }

  lemma RowsWrite(s: Store, p: Tid, time: int)
    requires RowsOk(s) && p in s.threads && s.threads[p].clock == time
    ensures RowsOk(WriteOut(s, p, time))
    ensures Flushed(time, p) in WriteOut(s, p, time).lastFlushed
  {
    var w, r := WriteOut(s, p, time), Insert(Erase(s.lastFlushed, p), p, time);
    ReplaceRow(s.lastFlushed, p, time);
    hide Insert, Erase, Sorted;
    forall u | u in w.live ensures HasRow(r, u) {
      var e :| e in s.lastFlushed && e.tid == u;
      assert if u == p then Flushed(time, p) in r else e in r;
    }
  }

  lemma TableWrite(s: Store, p: Tid, time: int)
    requires TableOk(s) && p in s.threads && s.threads[p].clock == time
    requires s.threads[p].buffer != [] && s.threads[p].buffer[|s.threads[p].buffer| - 1].time == time
    ensures TableOk(WriteOut(s, p, time))
    ensures Flushed(time, p) in WriteOut(s, p, time).lastFlushed
  {
    RowsWrite(s, p, time);
    ReplaceRow(s.lastFlushed, p, time);
    TopAppend(s.file, s.threads[p].buffer);
    hide Insert, Erase, RowsOk, Top, Heads;
  }

  /** A thread's clock and buffer after the sync of a flush. */
  function Synced(s: Store, u: Tid, time: int): Store
    requires u in s.threads
  {
    var uid := s.threads[u].uid;
    SetClock(if uid >= 0 then Emit(s, u, Line(time, uid, Sync)) else s, u, time)
  }

  lemma RowsFlushOther(cfg: Config, s: Store, u: Tid, time: int)
    requires cfg.lag > 0 && RowsOk(s)
    ensures RowsOk(FlushOther(cfg, s, u, time))
  {
    if u in s.live && Lags(cfg, time - s.threads[u].clock) {
      RowsMayRise(s, Synced(s, u, time));
      RowsWrite(Synced(s, u, time), u, time);
    }
  }

  lemma TableFlushOther(cfg: Config, s: Store, u: Tid, time: int)
    requires cfg.lag > 0 && TableOk(s)
    requires u in s.threads && s.threads[u].uid < 0 ==> s.threads[u].buffer == []
    ensures TableOk(FlushOther(cfg, s, u, time))
  {
    if u in s.live && Lags(cfg, time - s.threads[u].clock) {
      var t := Synced(s, u, time);
      TableMayRise(s, t);
      if t.threads[u].buffer != [] {
        TableWrite(t, u, time);
      }
    }
  }

  lemma {:induction false} RowsFlushOthers(cfg: Config, s: Store, us: seq<Tid>, time: int)
    requires cfg.lag > 0 && RowsOk(s)
    ensures RowsOk(FlushOthers(cfg, s, us, time))
    decreases |us|
  {
    if us != [] {
      RowsFlushOthers(cfg, s, us[..|us| - 1], time);
      RowsFlushOther(cfg, FlushOthers(cfg, s, us[..|us| - 1], time), us[|us| - 1], time);
    }
  }

  // ----- the recheck -----

  lemma {:induction false} LaggardRows(cfg: Config, lf: seq<Flushed>, time: int)
    requires Sorted(lf)
    ensures var us := Laggards(cfg, lf, time);
            && (forall i :: 0 <= i < |us| ==> us[i] == lf[i].tid && Lags(cfg, time - lf[i].time))
            && (forall i :: |us| <= i < |lf| ==> !Lags(cfg, time - lf[i].time))
  {
    if lf != [] && Lags(cfg, time - lf[0].time) {
      LaggardRows(cfg, lf[1..], time);
      var us := Laggards(cfg, lf, time);
      assert forall i :: 1 <= i < |lf| ==> lf[i] == lf[1..][i - 1];
    }
  }

  /** Either the cache is recent and below every row it replaced, or every row that lags is listed. */
  lemma RecheckCovers(cfg: Config, lf: seq<Flushed>, cache: int, time: int, p: Tid)
    requires cfg.lag > 0 && Sorted(lf) && Flushed(time, p) in lf
    ensures var (c, us) := Recheck(cfg, lf, cache, time);
            && (us == [] ==> time - c <= cfg.lag && (c == cache || forall e :: e in lf ==> c <= e.time))
            && (us != [] ==> c <= time && forall e :: e in lf ==> e.tid in us || !Lags(cfg, time - e.time))
            && (c == cache || exists e :: e in lf && e.time == c)
  {
    var us := Laggards(cfg, lf, time);
    LaggardRows(cfg, lf, time);
    var i :| 0 <= i < |lf| && lf[i] == Flushed(time, p);
    assert !Lags(cfg, 0);
    assert lf[0] in lf && (|us| < |lf| ==> lf[|us|] in lf);
  }

  // ----- the invariant -----

  /** `u` is live, registered, and does not lag behind `time`. */
  ghost predicate CloseTo(cfg: Config, s: Store, u: Tid, time: int) {
    u in s.live && u in s.threads && s.threads[u].uid >= 0 ==> !Lags(cfg, time - s.threads[u].clock)
  }

  /** A flush in progress still lists every thread that lags behind it. */
  ghost predicate Covers(cfg: Config, s: Store, d: Pending) {
    forall u :: u in s.live && u !in d.others ==> CloseTo(cfg, s, u, d.time)
  }

  ghost predicate Explained(cfg: Config, c: Core) {
    || (forall u :: u in c.store.live ==> CloseTo(cfg, c.store, u, c.store.cache))
    || (exists p :: p in c.pending && c.pending[p].time >= c.store.cache)
  }

  ghost predicate LagInv(cfg: Config, c: Core) {
    && TableOk(c.store)
    && (forall p :: p in c.pending ==> Covers(cfg, c.store, c.pending[p]))
    && Explained(cfg, c)
  }

  // ----- steps of one thread -----

  lemma TouchRows(cfg: Config, s: Store, p: Tid, l: Line, force: bool)
    requires cfg.lag > 0 && RowsOk(s) && p in s.threads && l.time >= s.threads[p].clock
    ensures RowsOk(Touch(cfg, Emit(s, p, l), p, l.time, force).store)
    ensures var t := Touch(cfg, Emit(s, p, l), p, l.time, force);
            t.others != [] || t.store.cache != s.cache ==> Flushed(l.time, p) in t.store.lastFlushed
  {
    var m := SetClock(Emit(s, p, l), p, l.time);
    RowsMayRise(s, m);
    RowsWrite(m, p, l.time);
    var w := WriteOut(m, p, l.time);
    hide Insert, Erase, Recheck;
    RowsMayRise(w, w.(cache := Recheck(cfg, w.lastFlushed, w.cache, l.time).0));
  }

  lemma TouchTable(cfg: Config, s: Store, p: Tid, l: Line, force: bool)
    requires cfg.lag > 0 && TableOk(s) && p in s.threads && l.time > s.threads[p].clock
    ensures TableOk(Touch(cfg, Emit(s, p, l), p, l.time, force).store)
  {
    var m := SetClock(Emit(s, p, l), p, l.time);
    TableMayRise(s, m);
    TableWrite(m, p, l.time);
    var w := WriteOut(m, p, l.time);
    RecheckCovers(cfg, w.lastFlushed, w.cache, l.time, p);
    hide Insert, Erase, Recheck, RowsOk, Top, Heads;
    TableMayRise(w, w.(cache := Recheck(cfg, w.lastFlushed, w.cache, l.time).0));
  }

  lemma TouchCovers(cfg: Config, s: Store, p: Tid, l: Line, force: bool)
    requires cfg.lag > 0 && RowsOk(s) && p in s.threads && l.time >= s.threads[p].clock
    ensures var t := Touch(cfg, Emit(s, p, l), p, l.time, force);
            && (t.others != [] ==> Covers(cfg, t.store, Pending(l.time, t.others)) && t.store.cache <= l.time)
            && (t.others == [] ==> t.store.cache == s.cache
                                   || forall u :: u in t.store.live ==> CloseTo(cfg, t.store, u, t.store.cache))
            && (t.others == [] && t.store.file != s.file ==> l.time - t.store.cache <= cfg.lag)
  {
    TouchRows(cfg, s, p, l, force);
    var t := Touch(cfg, Emit(s, p, l), p, l.time, force);
    var lf := t.store.lastFlushed;
    if |s.threads[p].buffer| + 1 >= cfg.accessesFlush || force {
      var m := SetClock(Emit(s, p, l), p, l.time);
      RowsMayRise(s, m);
      RowsWrite(m, p, l.time);
      RecheckCovers(cfg, lf, s.cache, l.time, p);
      hide Insert, Erase, Recheck, Laggards;
      forall u | u in t.store.live ensures exists e :: e in lf && e.tid == u && e.time <= t.store.threads[u].clock {
        assert HasRow(lf, u);
      }
    }
  }

  /** Threads that are live and registered in `t` were so in `s` with a lower clock, or have reached `bound`. */
  ghost predicate Rises(s: Store, t: Store, bound: int) {
    forall u :: u in t.live && u in t.threads && t.threads[u].uid >= 0 ==>
      || (u in s.live && u in s.threads && s.threads[u].uid >= 0 && s.threads[u].clock <= t.threads[u].clock)
      || bound <= t.threads[u].clock
  }

  lemma CoversKept(cfg: Config, s: Store, t: Store, bound: int, d: Pending)
    requires cfg.lag > 0 && Rises(s, t, bound) && d.time <= bound && Covers(cfg, s, d)
    ensures Covers(cfg, t, d)
  {
  }

  lemma LocalLag(cfg: Config, c: Core, p: Tid, time: int, e: Event)
    requires cfg.lag > 0 && CoreInv(c) && LagInv(cfg, c) && CoreEnabled(cfg, c, Local(p, time, e))
    ensures LagInv(cfg, CoreNext(cfg, c, Local(p, time, e)))
  {
    var s, l := c.store, Line(time, c.store.threads[p].uid, e);
    TouchTable(cfg, s, p, l, false);
    TouchCovers(cfg, s, p, l, false);
    TouchClocks(cfg, s, p, l, false);
    hide Touch, FileInv, TableOk, Covers, Explained, CloseTo;
    TouchedLag(cfg, c, Touch(cfg, Emit(s, p, l), p, time, false), p, time);
  }

  /** A touch by `p` that may start a flush. */
  lemma TouchedLag(cfg: Config, c: Core, t: Touched, p: Tid, time: int)
    requires cfg.lag > 0 && LagInv(cfg, c) && p in c.store.live && p in c.store.threads && p !in c.pending
    requires TableOk(t.store) && c.store.threads[p].clock <= time
    requires t.store.live == c.store.live && t.store.threads.Keys == c.store.threads.Keys
    requires forall q :: q in c.store.threads ==>
               && t.store.threads[q].uid == c.store.threads[q].uid
               && t.store.threads[q].clock == if q == p then time else c.store.threads[q].clock
    requires t.others != [] ==> Covers(cfg, t.store, Pending(time, t.others)) && time >= t.store.cache
    requires t.others == [] ==> t.store.cache == c.store.cache
                                || forall u :: u in t.store.live ==> CloseTo(cfg, t.store, u, t.store.cache)
    ensures LagInv(cfg, AfterTouch(c, t, p, time))
  {
    var d := AfterTouch(c, t, p, time);
    hide TableOk;
    forall q | q in d.pending ensures Covers(cfg, d.store, d.pending[q]) {
      if q in c.pending && d.pending[q] == c.pending[q] {
        CoversKept(cfg, c.store, d.store, c.pending[q].time, c.pending[q]);
      }
    }
    LocalExplained(cfg, c, d, p);
  }

  lemma LocalExplained(cfg: Config, c: Core, c': Core, p: Tid)
    requires cfg.lag > 0 && Explained(cfg, c) && p !in c.pending
    requires c'.store.live == c.store.live && Rises(c.store, c'.store, c.store.cache)
    requires p !in c'.pending ==> c'.pending == c.pending
    requires p !in c'.pending ==> c'.store.cache == c.store.cache
                                  || forall u :: u in c'.store.live ==> CloseTo(cfg, c'.store, u, c'.store.cache)
    requires p in c'.pending ==> c'.pending[p].time >= c'.store.cache
    ensures Explained(cfg, c')
  {
  }

  /** Once its first entry is dealt with, a flush still covers the rest. */
  lemma FlushOneCovers(cfg: Config, s: Store, d: Pending)
    requires cfg.lag > 0 && s.live <= s.threads.Keys && Covers(cfg, s, d) && d.others != []
    ensures Covers(cfg, FlushOther(cfg, s, d.others[0], d.time), d.(others := d.others[1..]))
  {
    FlushOtherClocks(cfg, s, d.others[0], d.time);
    assert forall v :: v in d.others ==> v == d.others[0] || v in d.others[1..];
  }

  lemma ExplainedKept(cfg: Config, c: Core, c': Core)
    requires cfg.lag > 0 && Explained(cfg, c) && Rises(c.store, c'.store, c.store.cache)
    requires c'.store.live <= c.store.live && c'.store.cache == c.store.cache
    requires forall q :: q in c.pending ==> q in c'.pending && c'.pending[q].time == c.pending[q].time
    ensures Explained(cfg, c')
  {
    if q :| q in c.pending && c.pending[q].time >= c.store.cache {
      assert q in c'.pending && c'.pending[q].time >= c'.store.cache;
    }
  }

  lemma FlushOneLag(cfg: Config, c: Core, p: Tid)
    requires cfg.lag > 0 && CoreInv(c) && LagInv(cfg, c) && CoreEnabled(cfg, c, FlushOne(p))
    ensures LagInv(cfg, CoreNext(cfg, c, FlushOne(p)))
  {
    var s, c', d := c.store, CoreNext(cfg, c, FlushOne(p)), c.pending[p];
    var u := d.others[0];
    assert u in s.threads ==> BufferOk(s, s.live, u);
    TableFlushOther(cfg, s, u, d.time);
    FlushOtherClocks(cfg, s, u, d.time);
    forall q | q in c'.pending ensures Covers(cfg, c'.store, c'.pending[q]) {
      if q == p {
        FlushOneCovers(cfg, s, d);
      } else {
        CoversKept(cfg, s, c'.store, c.pending[q].time, c.pending[q]);
      }
    }
    ExplainedKept(cfg, c, c');
  }

  lemma FlushLeaveLag(cfg: Config, c: Core, p: Tid)
    requires cfg.lag > 0 && LagInv(cfg, c) && CoreEnabled(cfg, c, FlushLeave(p))
    ensures LagInv(cfg, CoreNext(cfg, c, FlushLeave(p)))
  {
    var c' := CoreNext(cfg, c, FlushLeave(p));
    assert Covers(cfg, c.store, c.pending[p]);
    forall q | q in c'.pending ensures Covers(cfg, c'.store, c'.pending[q]) {
      assert Covers(cfg, c.store, c.pending[q]);
    }
    if q :| q in c.pending && c.pending[q].time >= c.store.cache {
      if q != p {
        assert q in c'.pending;
      }
    }
  }

  // ----- broadcasts -----

  ghost predicate SilentEmpty(s: Store) {
    forall u :: u in s.threads && s.threads[u].uid < 0 ==> s.threads[u].buffer == []
  }

  lemma {:induction false} FlushOthersTable(cfg: Config, s: Store, us: seq<Tid>, time: int)
    requires cfg.lag > 0 && TableOk(s) && SilentEmpty(s)
    requires forall q :: q in s.live ==> s.threads[q].clock <= time
    ensures var t := FlushOthers(cfg, s, us, time);
            TableOk(t) && SilentEmpty(t) && forall q :: q in t.live ==> t.threads[q].clock <= time
    decreases |us|
  {
    if us != [] {
      FlushOthersTable(cfg, s, us[..|us| - 1], time);
      var m, u := FlushOthers(cfg, s, us[..|us| - 1], time), us[|us| - 1];
      TableFlushOther(cfg, m, u, time);
      FlushOtherClocks(cfg, m, u, time);
    }
  }

  lemma BroadcastTable(cfg: Config, s: Store, p: Tid, n: int, e: Event)
    requires cfg.lag > 0 && TableOk(s) && SilentEmpty(s) && p in s.threads && n > s.threads[p].clock
    requires forall q :: q in s.live ==> s.threads[q].clock <= n
    ensures TableOk(Broadcast(cfg, s, p, n, e))
  {
    var l := Line(n, s.threads[p].uid, e);
    var t := Touch(cfg, Emit(s, p, l), p, n, true);
    TouchTable(cfg, s, p, l, true);
    TouchClocks(cfg, s, p, l, true);
    OwnLineFields(cfg, s, p, l);
    FlushOthersTable(cfg, t.store, t.others, n);
    var f := FlushOthers(cfg, t.store, t.others, n);
    SetClocksRises(f, n);
    TableMayRise(f, SetClocks(f, f.live, n));
  }

  /** After a broadcast every live clock has reached every time in the table and every pending flush. */
  lemma SynchronisedLag(cfg: Config, c: Core, c': Core, n: int)
    requires cfg.lag > 0 && TableOk(c'.store) && Synchronised(c.store, c'.store, n)
    requires c'.pending == c.pending && forall p :: p in c.pending ==> c.pending[p].time <= n
    ensures LagInv(cfg, c')
  {
  }

  lemma PendingBelow(c: Core)
    requires CoreInv(c)
    ensures forall p :: p in c.pending ==> c.pending[p].time <= NextTime(c.store)
  {
  }

  lemma AnnounceLag(cfg: Config, c: Core, p: Tid, e: Event)
    requires cfg.lag > 0 && CoreInv(c) && LagInv(cfg, c) && CoreEnabled(cfg, c, Announce(p, e))
    requires Fits(c, Announce(p, e))
    ensures LagInv(cfg, CoreNext(cfg, c, Announce(p, e)))
  {
    var s, n := c.store, NextTime(c.store);
    EmptyBuffers(s);
    AnnounceKeeps(cfg, s, p, e);
    BroadcastTable(cfg, s, p, n, e);
    PendingBelow(c);
    SynchronisedLag(cfg, c, CoreNext(cfg, c, Announce(p, e)), n);
  }

  lemma EmptyBuffers(s: Store)
    requires FileInv(s, s.live)
    ensures SilentEmpty(s)
  {
    UnregisteredEmpty(s, s.live);
  }

  /** The table after the `tr` broadcast of a thread that is new or was unregistered. */
  lemma NamedTable(cfg: Config, s: Store, p: Tid, uid: int, clock: int, n: int)
    requires cfg.lag > 0 && TableOk(s) && SilentEmpty(s) && uid >= 0 && clock < n
    requires p in s.threads ==> s.threads[p].clock == clock
    requires forall q :: q in s.live ==> s.threads[q].clock <= n
    ensures TableOk(Named(s, p, ThreadData(uid, clock, [])))
    ensures TableOk(Broadcast(cfg, Named(s, p, ThreadData(uid, clock, [])), p, n, Register))
  {
    var b := Named(s, p, ThreadData(uid, clock, []));
    assert TableOk(b);
    BroadcastTable(cfg, b, p, n, Register);
  }

  lemma JoinLag(cfg: Config, c: Core, p: Tid, uid: int)
    requires cfg.lag > 0 && CoreInv(c) && LagInv(cfg, c) && CoreEnabled(cfg, c, Join(p, uid)) && Near(c.store)
    ensures LagInv(cfg, CoreNext(cfg, c, Join(p, uid)))
  {
    var s, n := c.store, NextTime(c.store);
    EmptyBuffers(s);
    NamedTable(cfg, s, p, uid, s.threads[p].clock, n);
    assert s.threads[p].(uid := uid) == ThreadData(uid, s.threads[p].clock, []);
    JoinKeeps(cfg, s, p, uid);
    PendingBelow(c);
    SynchronisedLag(cfg, c, CoreNext(cfg, c, Join(p, uid)), n);
  }

  /** A new thread enters the live set with a row of its own. */
  lemma RowsAdmit(s: Store, t: Store, p: Tid)
    requires RowsOk(s) && p in s.threads && 0 <= s.threads[p].clock
    requires t == s.(live := s.live + {p}, lastFlushed := Insert(s.lastFlushed, p, 0))
    ensures RowsOk(t)
  {
    InsertRows(s.lastFlushed, Flushed(0, p));
    forall u | u in t.live ensures HasRow(t.lastFlushed, u) {
      if u == p {
        assert HasTid(s.lastFlushed, p) || Flushed(0, p) in t.lastFlushed;
        if HasTid(s.lastFlushed, p) {
          var i :| 0 <= i < |s.lastFlushed| && s.lastFlushed[i].tid == p;
          assert s.lastFlushed[i] in t.lastFlushed;
        }
      } else {
        var e :| e in s.lastFlushed && e.tid == u;
        assert e in t.lastFlushed;
      }
    }
  }

  lemma TableAdmits(s: Store, t: Store, p: Tid)
    requires TableOk(s) && p in s.threads && 0 <= s.threads[p].clock
    requires t == s.(live := s.live + {p}, lastFlushed := Insert(s.lastFlushed, p, 0))
    ensures TableOk(t)
  {
    RowsAdmit(s, t, p);
    InsertRows(s.lastFlushed, Flushed(0, p));
  }

  lemma SilentBeginLag(cfg: Config, c: Core, p: Tid)
    requires cfg.lag > 0 && cfg.registerThreads && CoreInv(c) && LagInv(cfg, c) && CoreEnabled(cfg, c, Begin(p, -1))
    ensures LagInv(cfg, CoreNext(cfg, c, Begin(p, -1)))
  {
    var s, c' := c.store, CoreNext(cfg, c, Begin(p, -1));
    var born := Named(s, p, ThreadData(-1, 0, []));
    assert TableOk(born);
    TableAdmits(born, c'.store, p);
    forall q | q in c'.pending ensures Covers(cfg, c'.store, c'.pending[q]) {
      CoversKept(cfg, s, c'.store, c.pending[q].time, c.pending[q]);
    }
    SilentStartExplained(cfg, c, c', p);
  }

  lemma StartTable(cfg: Config, s: Store, p: Tid, uid: int, n: int)
    requires cfg.lag > 0 && !cfg.registerThreads && FileInv(s, s.live) && Near(s) && n == NextTime(s)
    requires p !in s.threads && uid >= 0 && Fresh(s, uid)
    requires TableOk(Broadcast(cfg, Named(s, p, ThreadData(uid, 0, [])), p, n, Register))
    ensures TableOk(StartThread(cfg, s, p, uid, n))
  {
    var born := Named(s, p, ThreadData(uid, 0, []));
    RegisterBroadcast(cfg, s, born, p, uid, n);
    hide TableOk, Broadcast, Insert, FileInv;
    TableAdmits(Broadcast(cfg, born, p, n, Register), StartThread(cfg, s, p, uid, n), p);
  }

  lemma RegisteredBeginLag(cfg: Config, c: Core, p: Tid, uid: int)
    requires cfg.lag > 0 && !cfg.registerThreads && CoreInv(c) && LagInv(cfg, c) && CoreEnabled(cfg, c, Begin(p, uid))
    requires Near(c.store)
    ensures LagInv(cfg, CoreNext(cfg, c, Begin(p, uid)))
  {
    var s, n, c' := c.store, NextTime(c.store), CoreNext(cfg, c, Begin(p, uid));
    hide TableOk, Covers, Explained, SilentEmpty, Broadcast, Synchronised, Insert;
    EmptyBuffers(s);
    NamedTable(cfg, s, p, uid, 0, n);
    StartTable(cfg, s, p, uid, n);
    BeginKeeps(cfg, s, p, uid);
    PendingBelow(c);
    SynchronisedLag(cfg, c, c', n);
  }

  lemma SilentStartExplained(cfg: Config, c: Core, c': Core, p: Tid)
    requires cfg.lag > 0 && Explained(cfg, c) && c'.pending == c.pending && c'.store.cache == c.store.cache
    requires c.store.live <= c.store.threads.Keys
    requires c'.store.live == c.store.live + {p} && c'.store.threads == c.store.threads[p := ThreadData(-1, 0, [])]
    ensures Explained(cfg, c')
  {
  }

  lemma TracedEndLag(cfg: Config, c: Core, p: Tid)
    requires cfg.lag > 0 && CoreInv(c) && LagInv(cfg, c) && CoreEnabled(cfg, c, End(p)) && Near(c.store)
    requires c.store.threads[p].uid >= 0
    ensures LagInv(cfg, CoreNext(cfg, c, End(p)))
  {
    hide FileInv, TableOk, Covers, Explained, FinishThread, NextTime, Near, Synchronised, PendingOk;
    PendingBelow(c);
    TracedEndTable(cfg, c.store, p);
    SynchronisedLag(cfg, c, c.(store := FinishThread(cfg, c.store, p, NextTime(c.store))), NextTime(c.store));
  }

  lemma TracedEndTable(cfg: Config, s: Store, p: Tid)
    requires cfg.lag > 0 && FileInv(s, s.live) && p in s.live && s.threads[p].uid >= 0 && Near(s) && TableOk(s)
    ensures var t := FinishThread(cfg, s, p, NextTime(s)); TableOk(t) && Synchronised(s, t, NextTime(s))
  {
    EmptyBuffers(s);
    EndKeeps(cfg, s, p);
    hide TableOk, SilentEmpty, FinishThread, Broadcast, Synchronised;
    BroadcastTable(cfg, s, p, NextTime(s), Finish);
    RegisteredEndTable(cfg, s, p, NextTime(s));
  }

  lemma SilentEndLag(cfg: Config, c: Core, p: Tid)
    requires cfg.lag > 0 && CoreInv(c) && LagInv(cfg, c) && CoreEnabled(cfg, c, End(p))
    requires c.store.threads[p].uid < 0
    ensures LagInv(cfg, CoreNext(cfg, c, End(p)))
  {
    assert c.store.threads[p].uid == -1;
    EndKeeps(cfg, c.store, p);
    hide FileInv, FinishThread, Broadcast, Synchronised, Covers, Explained;
    LeaverLag(cfg, c, CoreNext(cfg, c, End(p)), p);
  }

  lemma LeaverLag(cfg: Config, c: Core, d: Core, p: Tid)
    requires cfg.lag > 0 && LagInv(cfg, c) && d == c.(store := c.store.(live := c.store.live - {p}))
    ensures LagInv(cfg, d)
  {
    forall q | q in d.pending ensures Covers(cfg, d.store, d.pending[q]) {
      assert Covers(cfg, c.store, c.pending[q]);
    }
    ExplainedKept(cfg, c, d);
  }

  /** A thread leaves the live set; its row may stay behind. */
  lemma EndLag(cfg: Config, c: Core, p: Tid)
    requires cfg.lag > 0 && CoreInv(c) && LagInv(cfg, c) && CoreEnabled(cfg, c, End(p))
    requires c.store.threads[p].uid >= 0 ==> Near(c.store)
    ensures LagInv(cfg, CoreNext(cfg, c, End(p)))
  {
    hide CoreInv, LagInv, CoreNext, Near;
    if c.store.threads[p].uid >= 0 {
      TracedEndLag(cfg, c, p);
    } else {
      SilentEndLag(cfg, c, p);
    }
  }

  lemma RegisteredEndTable(cfg: Config, s: Store, p: Tid, n: int)
    requires cfg.lag > 0 && FileInv(s, s.live) && p in s.live && s.threads[p].uid >= 0 && n == NextTime(s)
    requires TableOk(Broadcast(cfg, s, p, n, Finish))
    ensures TableOk(FinishThread(cfg, s, p, n))
  {
    var b := Broadcast(cfg, s, p, n, Finish);
    FinishLine(cfg, s, s.live, p, Line(n, s.threads[p].uid, Finish));
    BroadcastKeeps(cfg, s, s.live - {p}, p, Line(n, s.threads[p].uid, Finish));
    assert BufferOk(b, s.live - {p}, p);
    TableMayRise(b, b.(live := b.live - {p}));
  }

  lemma EmptyLagInv(cfg: Config)
    ensures LagInv(cfg, EMPTY_CORE)
  {
    assert Heads([]) == [];
  }

  lemma StepKeepsLag(cfg: Config, c: Core, l: CoreLabel)
    requires cfg.lag > 0 && CoreInv(c) && LagInv(cfg, c) && CoreEnabled(cfg, c, l)
    requires IsBroadcast(cfg, c, l) ==> Fits(c, l)
    ensures LagInv(cfg, CoreNext(cfg, c, l))
  {
    match l
    case Local(p, time, e) => LocalLag(cfg, c, p, time, e);
    case FlushEnter(p) =>
    case FlushOne(p) => FlushOneLag(cfg, c, p);
    case FlushLeave(p) => FlushLeaveLag(cfg, c, p);
    case Announce(p, e) => AnnounceLag(cfg, c, p, e);
    case Join(p, uid) => JoinLag(cfg, c, p, uid);
    case Begin(p, uid) =>
      if cfg.registerThreads {
        SilentBeginLag(cfg, c, p);
      } else {
        RegisteredBeginLag(cfg, c, p, uid);
      }
    case End(p) => EndLag(cfg, c, p);
  }

  // ----- the bounds -----

  /** `u`'s clock is above `time - 1.75 * lag`. */
  predicate Within(cfg: Config, s: Store, u: Tid, time: int)
    requires u in s.threads
  {
    4 * (time - s.threads[u].clock) < 7 * cfg.lag
  }

  /** Some flush in progress has still to reach `u`. */
  ghost predicate Listed(c: Core, u: Tid) {
    exists q :: q in c.pending && u in c.pending[q].others
  }

  ghost predicate LagBounded(cfg: Config, c: Core, time: int) {
    forall u :: u in c.store.live && u in c.store.threads && c.store.threads[u].uid >= 0 ==>
      Within(cfg, c.store, u, time) || Listed(c, u)
  }

  /** A flush decided recently enough bounds everybody it has not listed. */
  lemma FlushBounds(cfg: Config, c: Core, q: Tid, u: Tid, time: int)
    requires LagInv(cfg, c) && q in c.pending && time - c.pending[q].time <= cfg.lag
    requires u in c.store.live && u in c.store.threads && c.store.threads[u].uid >= 0
    ensures Within(cfg, c.store, u, time) || Listed(c, u)
  {
    assert Covers(cfg, c.store, c.pending[q]);
    if u !in c.pending[q].others {
      assert CloseTo(cfg, c.store, u, c.pending[q].time);
    }
  }

  /** A recent cache bounds everybody, itself or by the flush that explains it. */
  lemma CacheBounds(cfg: Config, c: Core, u: Tid, time: int)
    requires LagInv(cfg, c) && time - c.store.cache <= cfg.lag
    requires u in c.store.live && u in c.store.threads && c.store.threads[u].uid >= 0
    ensures Within(cfg, c.store, u, time) || Listed(c, u)
  {
    if q :| q in c.pending && c.pending[q].time >= c.store.cache {
      FlushBounds(cfg, c, q, u, time);
    } else {
      assert CloseTo(cfg, c.store, u, c.store.cache);
    }
  }

  /**
    Right after a thread writes its buffer at `time`, every live registered thread is within 1.75 times the
    allowed difference, or on the list of a flush in progress.
  */
  lemma WriteBoundsLag(cfg: Config, c: Core, p: Tid, time: int, e: Event)
    requires cfg.lag > 0 && CoreInv(c) && LagInv(cfg, c) && CoreEnabled(cfg, c, Local(p, time, e))
    ensures var d := CoreNext(cfg, c, Local(p, time, e));
            d.store.file != c.store.file ==> LagBounded(cfg, d, time)
  {
    var d := CoreNext(cfg, c, Local(p, time, e));
    LocalLag(cfg, c, p, time, e);
    TouchCovers(cfg, c.store, p, Line(time, c.store.threads[p].uid, e), false);
    hide LagInv, Touch, Listed, Within;
    if d.store.file != c.store.file {
      forall u | u in d.store.live && u in d.store.threads && d.store.threads[u].uid >= 0
        ensures Within(cfg, d.store, u, time) || Listed(d, u)
      {
        if p in d.pending {
          FlushBounds(cfg, d, p, u, time);
        } else {
          CacheBounds(cfg, d, u, time);
        }
      }
    }
  }
}
