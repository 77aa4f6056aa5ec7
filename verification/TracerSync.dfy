/** What flushing the laggards does: who is flushed, what is written for them, and what is left alone. */
module TracerSync {
  import opened TraceLine
  import opened TraceOrder
  import opened Access
  import opened TracerStore
  import opened TracerBroadcast
  import opened TracerCore
  import opened TracerLag
  import opened TracerEmission
  import opened TracerBuffers
  import opened Tracer
  import opened TracerAtomic
  import opened TracerFlush
  import opened TracerRuns
  import opened TracerTrace

  // ----- one thread -----

  /** At `time`, `u` is behind by at least three quarters of the allowed difference. */
  ghost predicate Behind(cfg: Config, s: Store, u: Tid, time: int) {
    u in s.live && u in s.threads && 4 * (time - s.threads[u].clock) >= 3 * cfg.lag
  }

  /**
    The line that lets merging pass `u` is the last one in the file, behind what its thread had buffered. The
    thread's buffer is empty, its clock is at the time of the line, and so is its only row in the table.
  */
  ghost predicate LeavesSync(s: Store, t: Store, u: Tid, time: int)
    requires u in s.threads
  {
    var uid := s.threads[u].uid;
    && Written(s, t, u, time, s.threads[u].buffer + [Line(time, uid, Sync)])
    && t == s.(threads := s.threads[u := ThreadData(uid, time, [])], file := t.file, lastFlushed := t.lastFlushed,
               emitted := s.emitted + [Line(time, uid, Sync)])
    && uid in Active(Heads(t.file)) && Active(Heads(t.file))[uid] == time
  }

  lemma SyncIsLast(f: seq<Line>, time: int, uid: int)
    requires uid >= 0
    ensures var g := Heads(f + [Line(time, uid, Sync)]); uid in Active(g) && Active(g)[uid] == time
  {
    HeadsAppend(f, [Line(time, uid, Sync)]);
    assert Heads([Line(time, uid, Sync)]) == [Head(time, uid, TagSync)];
    Snoc(Heads(f), Head(time, uid, TagSync));
  }

  /** A thread that is not that far behind is not touched; a registered one that is gets its line at once. */
  lemma FlushWrites(cfg: Config, s: Store, u: Tid, time: int)
    requires s.live <= s.threads.Keys
    ensures var t := FlushOther(cfg, s, u, time);
            && (!Behind(cfg, s, u, time) ==> t == s)
            && (Behind(cfg, s, u, time) && s.threads[u].uid >= 0 ==> LeavesSync(s, t, u, time))
            && (Behind(cfg, s, u, time) && s.threads[u].uid < 0 && s.threads[u].buffer == [] ==>
                  t == s.(threads := s.threads[u := s.threads[u].(clock := time)]))
  {
    hide Insert, Erase;
    ReplaceRow(s.lastFlushed, u, time);
    if Behind(cfg, s, u, time) && s.threads[u].uid >= 0 {
      var l := Line(time, s.threads[u].uid, Sync);
      SyncIsLast(s.file + s.threads[u].buffer, time, s.threads[u].uid);
      assert s.file + s.threads[u].buffer + [l] == s.file + (s.threads[u].buffer + [l]);
    }
  }

  /**
    One round of a flush, in every state of every run: either the thread is at least .75 of the allowed difference
    behind, and then its line is written or, without an id, its clock alone moves; or nothing changes but the list.
  */
  lemma RoundWrites(cfg: Config, m: Memory, run: seq<Label>, p: Tid)
    requires Sane(cfg) && ValidRun(cfg, Initial(cfg, m), run)
    requires Enabled(cfg, Final(cfg, Initial(cfg, m), run), Other(FlushOne(p)))
    ensures var c := Final(cfg, Initial(cfg, m), run).core;
            var t := Next(cfg, Final(cfg, Initial(cfg, m), run), Other(FlushOne(p))).core.store;
            var u, time := c.pending[p].others[0], c.pending[p].time;
            if u in c.store.live && 4 * (time - c.store.threads[u].clock) >= 3 * cfg.lag then
              if c.store.threads[u].uid >= 0 then LeavesSync(c.store, t, u, time)
              else t == c.store.(threads := c.store.threads[u := c.store.threads[u].(clock := time)])
            else t == c.store
  {
    hide Linked, AtomicInv, Streams, FlushOther;
    InitialStreams(cfg, m);
    InitialInv(cfg, m);
    RunKeepsLinks(cfg, Initial(cfg, m), run);
    var c := Final(cfg, Initial(cfg, m), run).core;
    var u := c.pending[p].others[0];
    SilentBuffersEmpty(c.store);
    FlushWrites(cfg, c.store, u, c.pending[p].time);
  }

  lemma SilentBuffersEmpty(s: Store)
    requires Streams(s)
    ensures forall u :: u in s.threads && s.threads[u].uid < 0 ==> s.threads[u].buffer == []
  {
    hide ByUid;
    forall u | u in s.threads && s.threads[u].uid < 0 ensures s.threads[u].buffer == [] {
      assert Intact(s, u);
    }
  }

  // ----- all threads on a list -----

  /** After a flush: who was not listed or not behind is as before; the others have their line, or no id. */
  ghost predicate Flushes(cfg: Config, s: Store, t: Store, us: seq<Tid>, time: int) {
    && t.live == s.live && t.threads.Keys == s.threads.Keys && t.cache == s.cache && s.file <= t.file
    && (forall u :: u in s.threads ==>
          if u in us && Behind(cfg, s, u, time) then SyncedIn(s, t, u, time) else t.threads[u] == s.threads[u])
    && (forall e :: e in t.lastFlushed ==>
          e in s.lastFlushed || (e.time == time && e.tid in us && Behind(cfg, s, e.tid, time)))
    && (forall e :: e in s.lastFlushed ==> e in t.lastFlushed || (e.tid in us && Behind(cfg, s, e.tid, time)))
  }

  ghost predicate SyncedIn(s: Store, t: Store, u: Tid, time: int)
    requires u in s.threads && u in t.threads
  {
    && t.threads[u] == ThreadData(s.threads[u].uid, time, [])
    && (s.threads[u].uid >= 0 ==>
          && Line(time, s.threads[u].uid, Sync) in t.file
          && (forall e :: e in t.lastFlushed && e.tid == u <==> e == Flushed(time, u)))
  }

  lemma {:induction false} FlushAllWrites(cfg: Config, s: Store, us: seq<Tid>, time: int)
    requires cfg.lag > 0 && s.live <= s.threads.Keys && SilentEmpty(s)
    ensures var t := FlushOthers(cfg, s, us, time); Flushes(cfg, s, t, us, time) && SilentEmpty(t)
    decreases |us|
  {
    if us != [] {
      var m, v := FlushOthers(cfg, s, us[..|us| - 1], time), us[|us| - 1];
      FlushAllWrites(cfg, s, us[..|us| - 1], time);
      FlushWrites(cfg, m, v, time);
      hide FlushOther, FlushOthers, LeavesSync, Flushes;
      if Behind(cfg, m, v, time) {
        SyncFlushes(m, FlushOther(cfg, m, v, time), v, time);
      }
      assert us == us[..|us| - 1] + [v];
      OneMoreFlushed(cfg, s, m, FlushOther(cfg, m, v, time), us[..|us| - 1], v, time);
    }
  }

  /** The last one on the list is flushed, and nobody else changes. */
  ghost predicate LastFlushes(m: Store, t: Store, v: Tid, time: int) {
    && v in m.threads && t.threads == m.threads[v := ThreadData(m.threads[v].uid, time, [])] && m.file <= t.file
    && t.live == m.live && t.cache == m.cache
    && if m.threads[v].uid >= 0 then
         && Line(time, m.threads[v].uid, Sync) in t.file
         && (forall e :: e in t.lastFlushed <==> (e in m.lastFlushed && e.tid != v) || e == Flushed(time, v))
       else t.lastFlushed == m.lastFlushed
  }

  lemma SyncFlushes(m: Store, t: Store, v: Tid, time: int)
    requires v in m.threads && SilentEmpty(m)
    requires if m.threads[v].uid >= 0 then LeavesSync(m, t, v, time)
             else t == m.(threads := m.threads[v := m.threads[v].(clock := time)])
    ensures LastFlushes(m, t, v, time)
  {
    hide Active, Heads;
    if m.threads[v].uid >= 0 {
      assert t.file[|t.file| - 1] == Line(time, m.threads[v].uid, Sync);
    }
  }

  lemma OneMoreSynced(cfg: Config, s: Store, m: Store, t: Store, us: seq<Tid>, v: Tid, time: int, u: Tid)
    requires cfg.lag > 0 && Flushes(cfg, s, m, us, time) && LastFlushes(m, t, v, time) && Behind(cfg, m, v, time)
    requires SilentEmpty(m) && u in s.threads && t.threads.Keys == s.threads.Keys
    ensures if u in us + [v] && Behind(cfg, s, u, time) then SyncedIn(s, t, u, time)
            else t.threads[u] == s.threads[u]
  {
    if u != v {
      assert u in us + [v] <==> u in us;
    } else {
      assert u in us + [v] && !(u in us && Behind(cfg, s, u, time));
    }
  }

  lemma OneMoreFlushed(cfg: Config, s: Store, m: Store, t: Store, us: seq<Tid>, v: Tid, time: int)
    requires cfg.lag > 0 && Flushes(cfg, s, m, us, time) && SilentEmpty(m)
    requires if Behind(cfg, m, v, time) then LastFlushes(m, t, v, time) else t == m
    ensures Flushes(cfg, s, t, us + [v], time) && SilentEmpty(t)
  {
    hide SyncedIn;
    if Behind(cfg, m, v, time) {
      assert t.threads.Keys == s.threads.Keys;
      forall u | u in s.threads
        ensures if u in us + [v] && Behind(cfg, s, u, time) then SyncedIn(s, t, u, time)
                else t.threads[u] == s.threads[u]
      {
        OneMoreSynced(cfg, s, m, t, us, v, time, u);
      }
      assert Behind(cfg, s, v, time);
    } else {
      assert v in s.threads && Behind(cfg, s, v, time) ==> v in us;
    }
  }

  /** The `thread_sync` lines of a flush, in the order of the list. */
  ghost function SyncsOf(cfg: Config, s: Store, us: seq<Tid>, time: int): seq<Line> {
    if us == [] then []
    else
      var before, v := us[..|us| - 1], us[|us| - 1];
      SyncsOf(cfg, s, before, time)
      + (if v !in before && Behind(cfg, s, v, time) && s.threads[v].uid >= 0 then [Line(time, s.threads[v].uid, Sync)]
         else [])
  }

  lemma FlushEmits(cfg: Config, s: Store, u: Tid, time: int)
    requires s.live <= s.threads.Keys
    ensures FlushOther(cfg, s, u, time).emitted ==
            s.emitted
            + (if Behind(cfg, s, u, time) && s.threads[u].uid >= 0 then [Line(time, s.threads[u].uid, Sync)] else [])
  {
    hide Insert, Erase;
    assert s.emitted + [] == s.emitted;
  }

  lemma BehindOnce(cfg: Config, s: Store, m: Store, us: seq<Tid>, v: Tid, time: int)
    requires cfg.lag > 0 && Flushes(cfg, s, m, us, time)
    ensures Behind(cfg, m, v, time) <==> Behind(cfg, s, v, time) && v !in us
    ensures v in m.threads ==> v in s.threads && m.threads[v].uid == s.threads[v].uid
  {
  }

  /** Laggards are flushed in the order of the list, each at most once. */
  lemma {:induction false} SyncsInOrder(cfg: Config, s: Store, us: seq<Tid>, time: int)
    requires cfg.lag > 0 && s.live <= s.threads.Keys && SilentEmpty(s)
    ensures FlushOthers(cfg, s, us, time).emitted == s.emitted + SyncsOf(cfg, s, us, time)
    decreases |us|
  {
    hide FlushOther, SilentEmpty, Flushes;
    if us != [] {
      var m, v := FlushOthers(cfg, s, us[..|us| - 1], time), us[|us| - 1];
      SyncsInOrder(cfg, s, us[..|us| - 1], time);
      FlushAllWrites(cfg, s, us[..|us| - 1], time);
      BehindOnce(cfg, s, m, us[..|us| - 1], v, time);
      FlushEmits(cfg, m, v, time);
    }
  }

  // ----- who is listed -----

  /** Rows and the cache say that somebody is further behind than the allowed difference. */
  ghost predicate Overdue(cfg: Config, s: Store, p: Tid, time: int) {
    time - s.cache > cfg.lag && exists e :: e in s.lastFlushed && e.tid != p && e.time < time - cfg.lag
  }

  /** The table says that `u` was last flushed at least three quarters of the allowed difference ago. */
  ghost predicate BehindRow(cfg: Config, s: Store, u: Tid, p: Tid, time: int) {
    u != p && exists e :: e in s.lastFlushed && e.tid == u && 4 * (time - e.time) >= 3 * cfg.lag
  }

  /** `c` is the least time of all rows, or of those that are not behind. */
  ghost predicate LeastRow(cfg: Config, lf: seq<Flushed>, c: int, time: int, onTime: bool) {
    && (exists e :: e in lf && e.time == c && (onTime ==> 4 * (time - e.time) < 3 * cfg.lag))
    && (forall e :: e in lf && (onTime ==> 4 * (time - e.time) < 3 * cfg.lag) ==> c <= e.time)
  }

  /** The threads of the first rows, in their order. */
  ghost predicate FrontOf(us: seq<Tid>, lf: seq<Flushed>) {
    |us| <= |lf| && forall i :: 0 <= i < |us| ==> us[i] == lf[i].tid
  }

  /** `lf[k..]` are the rows that are not behind. */
  lemma LeastOfRest(cfg: Config, lf: seq<Flushed>, k: nat, time: int)
    requires Sorted(lf) && k < |lf|
    requires forall i :: 0 <= i < |lf| ==> (i < k <==> 4 * (time - lf[i].time) >= 3 * cfg.lag)
    ensures LeastRow(cfg, lf, lf[k].time, time, true)
  {
    assert lf[k] in lf;
    forall e | e in lf && 4 * (time - e.time) < 3 * cfg.lag ensures lf[k].time <= e.time {
      var i :| 0 <= i < |lf| && lf[i] == e;
    }
  }

  lemma LeastOfAll(cfg: Config, lf: seq<Flushed>, time: int)
    requires Sorted(lf) && lf != []
    ensures LeastRow(cfg, lf, lf[0].time, time, false)
  {
    assert lf[0] in lf;
    forall e | e in lf ensures lf[0].time <= e.time {
      var i :| 0 <= i < |lf| && lf[i] == e;
    }
  }

  ghost predicate RowBehind(cfg: Config, lf: seq<Flushed>, u: Tid, time: int) {
    exists e :: e in lf && e.tid == u && 4 * (time - e.time) >= 3 * cfg.lag
  }

  lemma ListedRows(cfg: Config, lf: seq<Flushed>, us: seq<Tid>, time: int, u: Tid)
    requires FrontOf(us, lf) && forall i :: 0 <= i < |lf| ==> (i < |us| <==> 4 * (time - lf[i].time) >= 3 * cfg.lag)
    ensures u in us <==> RowBehind(cfg, lf, u, time)
  {
    if u in us {
      var i :| 0 <= i < |us| && us[i] == u;
      assert lf[i] in lf;
    }
    if e :| e in lf && e.tid == u && 4 * (time - e.time) >= 3 * cfg.lag {
      var i :| 0 <= i < |lf| && lf[i] == e;
      assert us[i] == u;
    }
  }

  lemma OldestIsFirst(lf: seq<Flushed>, bound: int)
    requires Sorted(lf) && lf != []
    ensures (exists e :: e in lf && e.time < bound) <==> lf[0].time < bound
  {
    assert lf[0] in lf;
    if e :| e in lf && e.time < bound {
      var i :| 0 <= i < |lf| && lf[i] == e;
    }
  }

  /** The table is in order: its front is listed, and the cache is the first row after it. */
  lemma FrontIsListed(cfg: Config, lf: seq<Flushed>, cache: int, time: int)
    requires cfg.lag > 0 && Sorted(lf)
    ensures var (c, us) := Recheck(cfg, lf, cache, time);
            if lf == [] || time - cache <= cfg.lag then c == cache && us == []
            else if time - lf[0].time <= cfg.lag then c == lf[0].time && us == []
            else
              && FrontOf(us, lf)
              && (forall i :: 0 <= i < |lf| ==> (i < |us| <==> 4 * (time - lf[i].time) >= 3 * cfg.lag))
              && c == if |us| < |lf| then lf[|us|].time else lf[0].time
  {
    LaggardRows(cfg, lf, time);
  }

  lemma RecheckLists(cfg: Config, lf: seq<Flushed>, cache: int, p: Tid, time: int)
    requires cfg.lag > 0 && Sorted(lf) && Flushed(time, p) in lf
    ensures var (c, us) := Recheck(cfg, lf, cache, time);
            if time - cache <= cfg.lag then c == cache && us == []
            else if exists e :: e in lf && e.time < time - cfg.lag then
              && LeastRow(cfg, lf, c, time, true) && FrontOf(us, lf)
              && forall u :: u in us <==> RowBehind(cfg, lf, u, time)
            else us == [] && LeastRow(cfg, lf, c, time, false)
  {
    hide Recheck, LeastRow, RowBehind, Sorted;
    FrontIsListed(cfg, lf, cache, time);
    OldestIsFirst(lf, time - cfg.lag);
    LeastOfAll(cfg, lf, time);
    var us := Recheck(cfg, lf, cache, time).1;
    if time - cache > cfg.lag && time - lf[0].time > cfg.lag {
      var k :| 0 <= k < |lf| && lf[k] == Flushed(time, p);
      assert |us| <= k;
      LeastOfRest(cfg, lf, |us|, time);
      forall u ensures u in us <==> RowBehind(cfg, lf, u, time) {
        ListedRows(cfg, lf, us, time, u);
      }
    }
  }

  /**
    Who is flushed: nobody after an event that waits in its buffer; after a write, if the cache and some row are
    more than the allowed difference behind, exactly the threads whose rows are .75 of it behind.
  */
  lemma TouchLists(cfg: Config, s: Store, p: Tid, l: Line, force: bool)
    requires cfg.lag > 0 && Sorted(s.lastFlushed) && p in s.threads
    ensures var t := Touch(cfg, Emit(s, p, l), p, l.time, force);
            if |s.threads[p].buffer| + 1 < cfg.accessesFlush && !force then t.others == [] && t.store.cache == s.cache
            else if Overdue(cfg, s, p, l.time) then
              && (forall u :: u in t.others <==> BehindRow(cfg, s, u, p, l.time))
              && FrontOf(t.others, t.store.lastFlushed)
              && LeastRow(cfg, t.store.lastFlushed, t.store.cache, l.time, true)
            else
              && t.others == []
              && if l.time - s.cache <= cfg.lag then t.store.cache == s.cache
                 else LeastRow(cfg, t.store.lastFlushed, t.store.cache, l.time, false)
  {
    hide Recheck, Insert, Erase, Sorted, LeastRow;
    ReplaceRow(s.lastFlushed, p, l.time);
    var lf := Insert(Erase(s.lastFlushed, p), p, l.time);
    RecheckLists(cfg, lf, s.cache, p, l.time);
    assert forall u :: RowBehind(cfg, lf, u, l.time) <==> BehindRow(cfg, s, u, p, l.time);
  }

  // ----- events -----

  /** `u` after the laggards have been flushed and all live clocks set. */
  lemma SyncedByAll(cfg: Config, s: Store, w: Store, f: Store, us: seq<Tid>, n: int, u: Tid)
    requires Flushes(cfg, w, f, us, n) && u in s.live && s.live <= s.threads.Keys && s.threads.Keys == w.threads.Keys
    requires w.live == s.live && w.threads[u] == s.threads[u]
    ensures var t := SetClocks(f, s.live, n);
            u in t.threads && if u in us && Behind(cfg, s, u, n) then SyncedIn(s, t, u, n)
                              else t.threads[u] == s.threads[u].(clock := n)
  {
  }

  /** An event under all thread locks at `n` flushes exactly the threads whose row and whose clock are behind. */
  lemma BroadcastSyncs(cfg: Config, s: Store, p: Tid, n: int, e: Event, u: Tid)
    requires cfg.lag > 0 && Sorted(s.lastFlushed) && SilentEmpty(s) && s.live <= s.threads.Keys && p in s.threads
    requires u in s.live && u != p
    ensures var t := Broadcast(cfg, s, p, n, e);
            && u in t.threads
            && if Overdue(cfg, s, p, n) && BehindRow(cfg, s, u, p, n) && Behind(cfg, s, u, n) then SyncedIn(s, t, u, n)
               else t.threads[u] == s.threads[u].(clock := n)
  {
    var l := Line(n, s.threads[p].uid, e);
    OwnLineFields(cfg, s, p, l);
    TouchLists(cfg, s, p, l, true);
    var w := Touch(cfg, Emit(s, p, l), p, n, true);
    assert w.store == OwnLine(cfg, s, p, l);
    assert SilentEmpty(w.store);
    hide Touch, OwnLine, FlushOthers, Sorted, LeastRow, FrontOf, Overdue, BehindRow, Behind, Flushes, SyncedIn,
         SilentEmpty;
    FlushAllWrites(cfg, w.store, w.others, n);
    SyncedByAll(cfg, s, w.store, FlushOthers(cfg, w.store, w.others, n), w.others, n, u);
    assert SetClocks(FlushOthers(cfg, w.store, w.others, n), s.live, n) == Broadcast(cfg, s, p, n, e);
  }

  lemma RunFacts(cfg: Config, m: Memory, run: seq<Label>)
    requires Sane(cfg) && ValidRun(cfg, Initial(cfg, m), run)
    ensures var s := Final(cfg, Initial(cfg, m), run).core.store; RowsOk(s) && Sorted(s.lastFlushed) && SilentEmpty(s)
  {
    hide Linked, AtomicInv, Streams;
    InitialStreams(cfg, m);
    InitialInv(cfg, m);
    RunKeepsLinks(cfg, Initial(cfg, m), run);
    RunKeepsFlush(cfg, Initial(cfg, m), run);
    SilentBuffersEmpty(Final(cfg, Initial(cfg, m), run).core.store);
  }

  /** ROI changes and the calls of unregistered threads, in every state of every run. */
  lemma AnnounceSyncs(cfg: Config, m: Memory, run: seq<Label>, p: Tid, e: Event, u: Tid)
    requires Sane(cfg) && ValidRun(cfg, Initial(cfg, m), run)
    requires Enabled(cfg, Final(cfg, Initial(cfg, m), run), Other(Announce(p, e)))
    requires u in Final(cfg, Initial(cfg, m), run).core.store.live && u != p
    ensures var s := Final(cfg, Initial(cfg, m), run).core.store;
            var t := Next(cfg, Final(cfg, Initial(cfg, m), run), Other(Announce(p, e))).core.store;
            var n := NextTime(s);
            && u in t.threads
            && if Overdue(cfg, s, p, n) && BehindRow(cfg, s, u, p, n) && Behind(cfg, s, u, n) then SyncedIn(s, t, u, n)
               else t.threads[u] == s.threads[u].(clock := n)
  {
    hide Broadcast, Initial, Final, ValidRun, RowsOk, Sorted, SilentEmpty, Overdue, BehindRow, Behind, SyncedIn,
         NextTime;
    RunFacts(cfg, m, run);
    var s := Final(cfg, Initial(cfg, m), run).core.store;
    BroadcastSyncs(cfg, s, p, NextTime(s), e, u);
  }

  /** A flush is decided exactly by a write that finds somebody overdue, and lists exactly those who are behind. */
  ghost predicate Decides(cfg: Config, c: Core, d: Core, p: Tid, time: int)
    requires p in c.store.threads
  {
    if |c.store.threads[p].buffer| + 1 < cfg.accessesFlush || !Overdue(cfg, c.store, p, time) then
      d.pending == c.pending
    else
      && p in d.pending && d.pending == c.pending[p := d.pending[p]] && d.pending[p].time == time
      && (forall u :: u in d.pending[p].others <==> BehindRow(cfg, c.store, u, p, time))
  }

  lemma LocalDecides(cfg: Config, c: Core, p: Tid, time: int, e: Event)
    requires cfg.lag > 0 && Sorted(c.store.lastFlushed) && CoreEnabled(cfg, c, Local(p, time, e))
    ensures Decides(cfg, c, CoreNext(cfg, c, Local(p, time, e)), p, time)
  {
    hide Touch, Sorted, LeastRow;
    var l := Line(time, c.store.threads[p].uid, e);
    TouchLists(cfg, c.store, p, l, false);
    var t := Touch(cfg, Emit(c.store, p, l), p, time, false);
    if Overdue(cfg, c.store, p, time) {
      var r :| r in c.store.lastFlushed && r.tid != p && r.time < time - cfg.lag;
      assert BehindRow(cfg, c.store, r.tid, p, time);
    }
  }

  /** Accesses, calls, returns and context changes of registered threads, in every state of every run. */
  lemma EventDecides(cfg: Config, m: Memory, run: seq<Label>, l: Label)
    requires Sane(cfg) && ValidRun(cfg, Initial(cfg, m), run)
    requires var s := Final(cfg, Initial(cfg, m), run);
             Enabled(cfg, s, l) && CoreStep(cfg, s, l).Some? && CoreStep(cfg, s, l).value.Local?
    ensures var s := Final(cfg, Initial(cfg, m), run);
            var c := CoreStep(cfg, s, l).value;
            c.p in s.core.store.threads && Decides(cfg, s.core, Next(cfg, s, l).core, c.p, c.time)
  {
    hide CoreNext, Initial, Final, ValidRun, RowsOk, Sorted, SilentEmpty, Decides, Enabled, Next, CoreStep;
    RunFacts(cfg, m, run);
    var s := Final(cfg, Initial(cfg, m), run);
    StepMovesCore(cfg, s, l);
    var c := CoreStep(cfg, s, l).value;
    LocalDecides(cfg, s.core, c.p, c.time, c.event);
  }
}
