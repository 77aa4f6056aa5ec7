/**
  Every routine keeps the trace file legal for merging.

  `here` is the set of threads whose `tr` line is in the file and whose `tf` line is not; between
  routines it is the live set, inside one it may already lack a finishing thread or contain a
  starting one.
*/
module TracerFile {
  import opened TraceLine
  import opened TraceOrder
  import opened TracerStore

  ghost predicate BufferOk(s: Store, here: set<Tid>, p: Tid)
    requires p in s.threads
  {
    var t := s.threads[p];
    if p in here && t.uid >= 0 then
      && t.uid in Active(Heads(s.file))
      && Run(Heads(t.buffer), t.uid, Active(Heads(s.file))[t.uid])
      && LastTime(Heads(t.buffer), Active(Heads(s.file))[t.uid]) <= t.clock
    else
      t.buffer == []
  }

  ghost predicate DistinctUids(s: Store) {
    && (forall p :: p in s.threads ==> s.threads[p].uid >= -1 && s.threads[p].clock >= 0)
    && (forall p, q :: p in s.threads && q in s.threads && p != q && s.threads[p].uid >= 0
          ==> s.threads[p].uid != s.threads[q].uid)
  }

  ghost predicate Owned(s: Store, here: set<Tid>, u: int) {
    exists p :: p in s.threads && p in here && s.threads[p].uid == u
  }

  ghost predicate Known(s: Store, u: int) {
    exists p :: p in s.threads && s.threads[p].uid == u
  }

  ghost predicate FileInv(s: Store, here: set<Tid>) {
    && s.live <= s.threads.Keys && here <= s.threads.Keys
    && DistinctUids(s)
    && Wf(Heads(s.file))
    && (forall p :: p in s.threads ==> BufferOk(s, here, p))
    && (forall u :: u in Active(Heads(s.file)) ==> Owned(s, here, u))
    && (forall u :: u in Registered(Heads(s.file)) ==> Known(s, u))
  }

  /** Same threads with the same ids, and no clock has gone back. */
  ghost predicate Evolves(s: Store, t: Store) {
    && t.live == s.live && t.threads.Keys == s.threads.Keys
    && (forall q :: q in s.threads ==>
          t.threads[q].uid == s.threads[q].uid && s.threads[q].clock <= t.threads[q].clock)
  }

  /** The highest time in the file of `t` is the one in `s`, or not above `limit`. */
  ghost predicate TopGrowsTo(s: Store, t: Store, limit: int) {
    && Top(Heads(s.file)) <= Top(Heads(t.file))
    && (Top(Heads(t.file)) <= Top(Heads(s.file)) || Top(Heads(t.file)) <= limit)
  }

  // ----- the two building blocks: a line goes into a buffer, a buffer goes into the file -----

  lemma EmitKeeps(s: Store, here: set<Tid>, p: Tid, l: Line)
    requires FileInv(s, here) && p in here && s.threads[p].uid >= 0
    requires l.uid == s.threads[p].uid && l.time > s.threads[p].clock
    requires TagOf(l.event) == TagOther || TagOf(l.event) == TagSync
    ensures FileInv(SetClock(Emit(s, p, l), p, l.time), here)
  {
    var s' := SetClock(Emit(s, p, l), p, l.time);
    var t, a := s.threads[p], Active(Heads(s.file))[s.threads[p].uid];
    assert BufferOk(s, here, p);
    RunSnoc(Heads(t.buffer), HeadOf(l), t.uid, a);
    assert Heads(t.buffer + [l]) == Heads(t.buffer) + [HeadOf(l)];
    SameOwners(s, s', here);
    forall q | q in s'.threads ensures BufferOk(s', here, q) {
      assert BufferOk(s, here, q);
    }
  }

  lemma SameOwners(s: Store, s': Store, here: set<Tid>)
    requires s'.threads.Keys == s.threads.Keys
    requires forall p :: p in s.threads ==> s'.threads[p].uid == s.threads[p].uid
    ensures forall u :: Owned(s, here, u) ==> Owned(s', here, u)
    ensures forall u :: Known(s, u) ==> Known(s', u)
  {
    forall u | Owned(s, here, u) ensures Owned(s', here, u) {
      var p :| p in s.threads && p in here && s.threads[p].uid == u;
      assert p in s'.threads && s'.threads[p].uid == u;
    }
    forall u | Known(s, u) ensures Known(s', u) {
      var p :| p in s.threads && s.threads[p].uid == u;
      assert p in s'.threads && s'.threads[p].uid == u;
    }
  }

  lemma WriteKeeps(s: Store, here: set<Tid>, p: Tid, time: int)
    requires FileInv(s, here) && p in s.threads
    ensures FileInv(WriteOut(s, p, time), here)
    ensures TopGrowsTo(s, WriteOut(s, p, time), s.threads[p].clock)
  {
    var t := s.threads[p];
    var w := WriteOut(s, p, time);
    assert BufferOk(s, here, p);
    HeadsAppend(s.file, t.buffer);
    if p in here && t.uid >= 0 {
      AppendRun(Heads(s.file), Heads(t.buffer), t.uid);
    } else {
      assert s.file + t.buffer == s.file;
    }
    assert Heads([]) == [];
    assert w.file == s.file + t.buffer && w.threads == s.threads[p := t.(buffer := [])] && w.live == s.live;
    WrittenState(s, w, here, p);
  }

  lemma WrittenState(s: Store, w: Store, here: set<Tid>, p: Tid)
    requires FileInv(s, here) && p in s.threads && w.live == s.live
    requires w.threads == s.threads[p := s.threads[p].(buffer := [])]
    requires var f, g, t := Heads(s.file), Heads(w.file), s.threads[p];
             && Wf(g) && Registered(g) == Registered(f)
             && if p in here && t.uid >= 0 then
                  && t.uid in Active(f) && Active(g) == Active(f)[t.uid := LastTime(Heads(t.buffer), Active(f)[t.uid])]
                else Active(g) == Active(f)
    ensures FileInv(w, here)
  {
    hide Heads, Active, Registered, Wf, Top;
    NoHeads();
    assert BufferOk(s, here, p);
    SameOwners(s, w, here);
    forall q | q in w.threads ensures BufferOk(w, here, q) {
      assert BufferOk(s, here, q);
    }
    hide BufferOk, Owned, Known;
  }

  lemma NoHeads()
    ensures Heads([]) == []
  {
  }

  /** A special line and what precedes it in the buffer go to the file at once. */
  lemma EmitAndWrite(s: Store, p: Tid, l: Line, time: int)
    requires p in s.threads
    ensures var w := WriteOut(SetClock(Emit(s, p, l), p, time), p, time);
            && w.file == s.file + s.threads[p].buffer + [l]
            && w.threads == s.threads[p := ThreadData(s.threads[p].uid, time, [])]
            && w.live == s.live && w.cache == s.cache
            && w.emitted == s.emitted + [l]
            && w.lastFlushed == Insert(Erase(s.lastFlushed, p), p, time)
            && Heads(w.file) == Heads(s.file + s.threads[p].buffer) + [HeadOf(l)]
  {
    var w := WriteOut(SetClock(Emit(s, p, l), p, time), p, time);
    assert s.file + (s.threads[p].buffer + [l]) == s.file + s.threads[p].buffer + [l];
    HeadsAppend(s.file + s.threads[p].buffer, [l]);
    assert Heads([l]) == [HeadOf(l)];
  }

  /** The table, the cache and the history play no part; clocks may rise. */
  lemma ClocksMayRise(s: Store, s': Store, here: set<Tid>)
    requires FileInv(s, here) && Evolves(s, s') && s'.file == s.file
    requires forall p :: p in s.threads ==> s'.threads[p].buffer == s.threads[p].buffer
    ensures FileInv(s', here)
  {
    SameOwners(s, s', here);
    forall q | q in s'.threads ensures BufferOk(s', here, q) {
      assert BufferOk(s, here, q);
    }
  }

  // ----- flushing the others -----

  /** What a thread without an id has traced is in the file. */
  lemma UnregisteredEmpty(s: Store, here: set<Tid>)
    requires FileInv(s, here)
    ensures s.live <= s.threads.Keys
    ensures forall u :: u in s.threads && s.threads[u].uid < 0 ==> s.threads[u].buffer == []
  {
    forall u | u in s.threads && s.threads[u].uid < 0 ensures s.threads[u].buffer == [] {
      assert BufferOk(s, here, u);
    }
  }

  lemma FlushOtherKeeps(cfg: Config, s: Store, here: set<Tid>, u: Tid, time: int)
    requires cfg.lag > 0 && FileInv(s, here)
    requires u in s.live && Lags(cfg, time - s.threads[u].clock) ==> u in here
    ensures FileInv(FlushOther(cfg, s, u, time), here)
    ensures TopGrowsTo(s, FlushOther(cfg, s, u, time), time)
  {
    hide FileInv, WriteOut, Heads, Top;
    UnregisteredEmpty(s, here);
    if u in s.live && Lags(cfg, time - s.threads[u].clock) {
      var uid := s.threads[u].uid;
      var t := SetClock(if uid >= 0 then Emit(s, u, Line(time, uid, Sync)) else s, u, time);
      if uid >= 0 {
        EmitKeeps(s, here, u, Line(time, uid, Sync));
      } else {
        ClocksMayRise(s, t, here);
      }
      WriteKeeps(t, here, u, time);
    }
  }

  /** What a round of flushing does to the clocks: one that lags moves to `time`, the rest stay. */
  lemma FlushOtherClocks(cfg: Config, s: Store, u: Tid, time: int)
    requires cfg.lag > 0 && s.live <= s.threads.Keys
    ensures var t := FlushOther(cfg, s, u, time);
            && Evolves(s, t) && t.cache == s.cache
            && (forall q :: q in s.threads ==>
                  t.threads[q].clock == if q == u && u in s.live && Lags(cfg, time - s.threads[u].clock) then time
                                        else s.threads[q].clock)
  {
  }

  lemma {:induction false} FlushOthersKeep(cfg: Config, s: Store, here: set<Tid>, us: seq<Tid>, time: int)
    requires cfg.lag > 0 && FileInv(s, here)
    requires forall u :: u in us && u in s.live && u !in here ==> s.threads[u].clock >= time
    ensures var t := FlushOthers(cfg, s, us, time);
            && FileInv(t, here) && Evolves(s, t) && t.cache == s.cache && TopGrowsTo(s, t, time)
            && (forall q :: q in s.threads ==> (t.threads[q].clock == s.threads[q].clock || t.threads[q].clock == time))
    decreases |us|
  {
    if us != [] {
      var before, u := us[..|us| - 1], us[|us| - 1];
      FlushOthersKeep(cfg, s, here, before, time);
      var m := FlushOthers(cfg, s, before, time);
      FlushOtherKeeps(cfg, m, here, u, time);
      FlushOtherClocks(cfg, m, u, time);
    }
  }

  // ----- the routines -----

  lemma TouchClocks(cfg: Config, s: Store, p: Tid, l: Line, force: bool)
    requires p in s.threads
    ensures var t := Touch(cfg, Emit(s, p, l), p, l.time, force).store;
            && t.live == s.live && t.threads.Keys == s.threads.Keys
            && (forall q :: q in s.threads ==> (t.threads[q].uid == s.threads[q].uid
                  && t.threads[q].clock == if q == p then l.time else s.threads[q].clock))
  {
  }

  /** A traced event of a registered thread: line, clock, possibly a write to the file. */
  lemma TouchKeeps(cfg: Config, s: Store, here: set<Tid>, p: Tid, l: Line, force: bool)
    requires FileInv(s, here) && p in here && s.threads[p].uid >= 0
    requires l.uid == s.threads[p].uid && l.time > s.threads[p].clock
    requires TagOf(l.event) == TagOther || TagOf(l.event) == TagSync
    ensures FileInv(Touch(cfg, Emit(s, p, l), p, l.time, force).store, here)
    ensures TopGrowsTo(s, Touch(cfg, Emit(s, p, l), p, l.time, force).store, l.time)
  {
    var t := SetClock(Emit(s, p, l), p, l.time);
    EmitKeeps(s, here, p, l);
    var r := Touch(cfg, Emit(s, p, l), p, l.time, force).store;
    if r.file == t.file && r.threads == t.threads {
      ClocksMayRise(t, r, here);
    } else {
      var w := WriteOut(t, p, l.time);
      WriteKeeps(t, here, p, l.time);
      ClocksMayRise(w, r, here);
    }
  }

  lemma SetClocksRises(s: Store, n: int)
    requires s.live <= s.threads.Keys && forall q :: q in s.live ==> s.threads[q].clock <= n
    ensures var t := SetClocks(s, s.live, n);
            && Evolves(s, t) && t.file == s.file && t.cache == s.cache
            && (forall q :: q in s.threads ==> (t.threads[q].buffer == s.threads[q].buffer
                  && t.threads[q].clock == if q in s.live then n else s.threads[q].clock))
  {
  }

  /** After the own line is in the file, the rest of a broadcast keeps it legal. */
  lemma LiveIsKnown(s: Store, here: set<Tid>)
    requires FileInv(s, here)
    ensures s.live <= s.threads.Keys
  {
  }

  lemma FinishBroadcast(cfg: Config, w: Store, here: set<Tid>, p: Tid, others: seq<Tid>, n: int)
    requires cfg.lag > 0 && FileInv(w, here) && w.live <= here + {p}
    requires p in w.threads && w.threads[p].clock == n
    requires forall q :: q in w.live ==> w.threads[q].clock <= n
    ensures var t := SetClocks(FlushOthers(cfg, w, others, n), w.live, n);
            && FileInv(t, here) && Evolves(w, t) && TopGrowsTo(w, t, n)
            && (forall q :: q in w.threads && q in w.live + {p} ==> t.threads[q].clock == n)
  {
    hide FileInv, FlushOthers, Heads, Top;
    assert w.live <= w.threads.Keys by {
      LiveIsKnown(w, here);
    }
    FlushOthersKeep(cfg, w, here, others, n);
    var f := FlushOthers(cfg, w, others, n);
    SetClocksRises(f, n);
    ClocksMayRise(f, SetClocks(f, f.live, n), here);
  }
}
