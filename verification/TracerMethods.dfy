/**
  The tracer's helper routines as they update thread data, the file and the lock bank in place. Each is
  what one thread does while it holds the locks for it, and does what the step relation says.
*/
module TracerMethods {
  import opened TraceLine
  import opened Access
  import opened LockArithmetic
  import opened TracerStore
  import opened TracerLag

  /** `thread_data_t` */
  class ThreadRecord {
    var uid: int
    var clock: int
    var buffer: seq<Line>
    var bufferedEntries: int
    var flushOthers: seq<Tid>
    var indexLockList: seq<nat>

    constructor ()
      ensures View() == ThreadData(-1, 0, []) && bufferedEntries == 0 && indexLockList == [] && flushOthers == []
    {
      uid, clock, buffer := -1, 0, [];
      bufferedEntries, flushOthers, indexLockList := 0, [], [];
    }

    ghost function View(): ThreadData
      reads this
    {
      ThreadData(uid, clock, buffer)
    }
  }

  /** The loop over the front of the last-flushed table: the threads to flush and the new cache. */
  method FindLaggards(cfg: Config, lastFlushed: seq<Flushed>, time: int) returns (others: seq<Tid>, cache: int)
    requires lastFlushed != []
    ensures others == Laggards(cfg, lastFlushed, time) && |others| <= |lastFlushed|
    ensures forall i :: 0 <= i < |others| ==>
              others[i] == lastFlushed[i].tid && 4 * (time - lastFlushed[i].time) >= 3 * cfg.lag
    ensures |others| < |lastFlushed| ==> 4 * (time - lastFlushed[|others|].time) < 3 * cfg.lag
    ensures cache == if |others| < |lastFlushed| then lastFlushed[|others|].time else lastFlushed[0].time
  {
    others := [];
    cache := lastFlushed[0].time;
    var i := 0;
    while i < |lastFlushed|
      invariant i <= |lastFlushed| && |others| == i
      invariant forall k :: 0 <= k < i ==>
                  others[k] == lastFlushed[k].tid && 4 * (time - lastFlushed[k].time) >= 3 * cfg.lag
      invariant others + Laggards(cfg, lastFlushed[i..], time) == Laggards(cfg, lastFlushed, time)
      invariant cache == lastFlushed[0].time
    {
      var diff := time - lastFlushed[i].time;
      assert lastFlushed[i..][1..] == lastFlushed[i + 1..];
      if 4 * diff >= 3 * cfg.lag {
        others := others + [lastFlushed[i].tid];
      } else {
        cache := lastFlushed[i].time;
        break;
      }
      i := i + 1;
    }
  }

  /** The loop that takes the locks: the highest stamp found on the way. */
  method MaxStamp(list: seq<nat>, stamps: array<int>) returns (maxTime: int)
    requires forall i :: i in list ==> i < stamps.Length
    ensures 0 <= maxTime && forall i :: i in list ==> stamps[i] <= maxTime
    ensures maxTime == 0 || exists i :: i in list && stamps[i] == maxTime
  {
    maxTime := 0;
    for k := 0 to |list|
      invariant 0 <= maxTime && forall i :: i in list[..k] ==> i in list && stamps[i] <= maxTime
      invariant maxTime == 0 || exists i :: i in list && stamps[i] == maxTime
    {
      assert list[k] in list && list[..k + 1] == list[..k] + [list[k]];
      maxTime := if maxTime > stamps[list[k]] then maxTime else stamps[list[k]];
    }
    assert list[..|list|] == list;
  }

  class Tool {
    const cfg: Config
    var tls: map<Tid, ThreadRecord>
    var live: set<Tid>
    var lastFlushed: seq<Flushed>
    var lastFlushedCache: int
    var file: seq<Line>
    var inRoi: bool
    ghost var emitted: seq<Line>

    ghost predicate Valid()
      reads this, tls.Values
    {
      && live <= tls.Keys
      && (forall p, q :: p in tls && q in tls && p != q ==> tls[p] != tls[q])
      && (forall p :: p in tls ==> tls[p].bufferedEntries == |tls[p].buffer|)
    }

    ghost function Threads(): map<Tid, ThreadData>
      reads this, tls.Values
    {
      map p | p in tls :: tls[p].View()
    }

    ghost function View(): Store
      reads this, tls.Values
    {
      Store(Threads(), live, lastFlushed, lastFlushedCache, file, emitted)
    }

    constructor (cfg: Config)
      ensures Valid() && View() == EMPTY_STORE && this.cfg == cfg && !inRoi
    {
      this.cfg, inRoi := cfg, false;
      tls, live, lastFlushed, lastFlushedCache, file, emitted := map[], {}, [], 0, [], [];
    }

    /** `get_tls` */
    function Get(p: Tid): ThreadRecord
      reads this
      requires p in tls
    {
      tls[p]
    }

    /** Writes the buffer to the file and notes the time. */
    method WriteBuffer(p: Tid, time: int)
      requires Valid() && p in tls
      modifies this`file, this`lastFlushed, tls[p]
      ensures Valid() && View() == WriteOut(old(View()), p, time)
      ensures tls[p].flushOthers == old(tls[p].flushOthers)
    {
      var t := tls[p];
      file := file + t.buffer;
      t.bufferedEntries := 0;
      t.buffer := [];
      lastFlushed := Insert(Erase(lastFlushed, p), p, time);
      assert Threads() == old(View()).threads[p := t.View()];
    }

    /** Puts a line into the thread's buffer. */
    method Trace(p: Tid, l: Line)
      requires Valid() && p in tls
      modifies this`emitted, tls[p]
      ensures Valid() && View() == Emit(old(View()), p, l)
    {
      var t := tls[p];
      t.buffer := t.buffer + [l];
      t.bufferedEntries := t.bufferedEntries + 1;
      emitted := emitted + [l];
      assert Threads() == old(View()).threads[p := t.View()];
    }

    /** `touch_buffer`, up to the point where it turns to the other threads. The line is in the buffer. */
    method TouchBuffer(p: Tid, time: int, force: bool)
      requires Valid() && p in tls
      modifies this`file, this`lastFlushed, this`lastFlushedCache, tls[p]
      ensures Valid()
      ensures var r := Touch(cfg, old(View()), p, time, force); View() == r.store && tls[p].flushOthers == r.others
      ensures tls[p].clock == time && tls[p].uid == old(tls[p].uid)
      ensures if old(|tls[p].buffer|) >= cfg.accessesFlush || force then
                && file == old(file) + old(tls[p].buffer) && tls[p].buffer == []
                && (forall e :: e in lastFlushed <==> (e in old(lastFlushed) && e.tid != p) || e == Flushed(time, p))
              else
                && file == old(file) && tls[p].buffer == old(tls[p].buffer) && lastFlushed == old(lastFlushed)
                && lastFlushedCache == old(lastFlushedCache) && tls[p].flushOthers == []
    {
      ReplaceRow(lastFlushed, p, time);
      var t := tls[p];
      t.clock := time;
      t.flushOthers := [];
      assert Threads() == old(View()).threads[p := t.View()];
      assert View() == SetClock(old(View()), p, time);
      if t.bufferedEntries >= cfg.accessesFlush || force {
        WriteBuffer(p, time);
        Recount(p, time);
      }
    }

    /** Looks for threads that lag behind, when the cached minimum says there may be some. */
    method Recount(p: Tid, time: int)
      requires Valid() && p in tls && tls[p].flushOthers == []
      modifies this`lastFlushedCache, Get(p)`flushOthers
      ensures Valid()
      ensures var r := Recheck(cfg, lastFlushed, old(lastFlushedCache), time);
              View() == old(View()).(cache := r.0) && tls[p].flushOthers == r.1
    {
      if time - lastFlushedCache > cfg.lag && lastFlushed != [] {
        lastFlushedCache := lastFlushed[0].time;
        if time - lastFlushedCache > cfg.lag {
          var others, cache := FindLaggards(cfg, lastFlushed, time);
          tls[p].flushOthers := others;
          lastFlushedCache := cache;
        }
      }
      assert Threads() == old(Threads());
    }

    /** One round of `attempt_flush_others`. */
    method FlushThread(u: Tid, time: int)
      requires Valid()
      modifies this`file, this`lastFlushed, this`emitted, tls.Values
      ensures Valid() && View() == FlushOther(cfg, old(View()), u, time)
      ensures forall p :: p in tls ==> tls[p].flushOthers == old(tls[p].flushOthers)
      ensures if u in live && 4 * (time - old(tls[u].clock)) >= 3 * cfg.lag then
                && tls[u].clock == time && tls[u].uid == old(tls[u].uid)
                && (tls[u].uid >= 0 ==>
                      && file == old(file) + old(tls[u].buffer) + [Line(time, tls[u].uid, Sync)] && tls[u].buffer == []
                      && forall e ::
                           e in lastFlushed <==> (e in old(lastFlushed) && e.tid != u) || e == Flushed(time, u))
              else View() == old(View())
    {
      ReplaceRow(lastFlushed, u, time);
      if u in live {
        var t := tls[u];
        var diff := time - t.clock;
        if 4 * diff >= 3 * cfg.lag {
          SyncThread(u, time);
          if t.bufferedEntries > 0 {
            WriteBuffer(u, time);
          }
        }
      }
    }

    /** A registered thread gets a `thread_sync` line; any thread's clock moves to `time`. */
    method SyncThread(u: Tid, time: int)
      requires Valid() && u in tls
      modifies this`emitted, tls[u]
      ensures Valid() && tls[u].flushOthers == old(tls[u].flushOthers)
      ensures var s := old(View());
              var e := if s.threads[u].uid >= 0 then Emit(s, u, Line(time, s.threads[u].uid, Sync)) else s;
              View() == SetClock(e, u, time)
    {
      var t := tls[u];
      if t.uid >= 0 {
        t.buffer := t.buffer + [Line(time, t.uid, Sync)];
        t.bufferedEntries := t.bufferedEntries + 1;
        emitted := emitted + [Line(time, t.uid, Sync)];
      }
      t.clock := time;
      assert Threads() == old(View()).threads[u := t.View()];
    }

    /** `attempt_flush_others`: flushes the listed threads that still lag. */
    method AttemptFlushOthers(p: Tid, time: int)
      requires Valid() && p in tls
      modifies this`file, this`lastFlushed, this`emitted, tls.Values
      ensures Valid() && View() == FlushOthers(cfg, old(View()), old(tls[p].flushOthers), time)
      ensures tls[p].flushOthers == old(tls[p].flushOthers)
    {
      var others := tls[p].flushOthers;
      for i := 0 to |others|
        invariant Valid() && View() == FlushOthers(cfg, old(View()), others[..i], time)
        invariant tls[p].flushOthers == others
      {
        assert others[..i + 1][..i] == others[..i];
        FlushThread(others[i], time);
      }
      assert others[..|others|] == others;
    }

    /** `acquire_all_thread_locks`: the highest clock of the live threads. */
    method AcquireAllThreadLocks() returns (maxTime: int)
      requires Valid()
      ensures maxTime == MaxClock(View().threads, live)
    {
      maxTime := 0;
      var todo := live;
      while todo != {}
        invariant todo <= live && 0 <= maxTime
        invariant forall q :: q in live - todo ==> tls[q].clock <= maxTime
        invariant maxTime == 0 || exists q :: q in live - todo && tls[q].clock == maxTime
        decreases |todo|
      {
        var p :| p in todo;
        if tls[p].clock > maxTime {
          maxTime := tls[p].clock;
        }
        todo := todo - {p};
        assert p in live - todo;
      }
    }

    method SetAllClocks(time: int)
      requires Valid()
      modifies tls.Values
      ensures Valid()
      ensures forall q :: q in tls ==>
                tls[q].View() == if q in live then old(tls[q].View()).(clock := time) else old(tls[q].View())
    {
      var todo := live;
      while todo != {}
        invariant todo <= live && Valid()
        invariant forall q :: q in tls ==> tls[q].uid == old(tls[q].uid) && tls[q].buffer == old(tls[q].buffer)
        invariant forall q :: q in tls ==> tls[q].clock == if q in live - todo then time else old(tls[q].clock)
        decreases |todo|
      {
        var p :| p in todo;
        tls[p].clock := time;
        todo := todo - {p};
      }
    }

    /** `release_all_thread_locks`: every live thread's clock moves to the new time. */
    method ReleaseAllThreadLocks(time: int)
      requires Valid()
      modifies tls.Values
      ensures Valid() && View() == SetClocks(old(View()), live, time)
    {
      SetAllClocks(time);
      assert Threads() == SetClocks(old(View()), live, time).threads;
    }

    method TraceAndFlush(p: Tid, time: int, e: Event)
      requires Valid() && p in tls
      modifies this`file, this`lastFlushed, this`lastFlushedCache, this`emitted, tls.Values
      ensures Valid()
      ensures var t := Touch(cfg, Emit(old(View()), p, Line(time, old(View()).threads[p].uid, e)), p, time, true);
              View() == FlushOthers(cfg, t.store, t.others, time)
    {
      hide Touch, FlushOthers;
      Trace(p, Line(time, tls[p].uid, e));
      TouchBuffer(p, time, true);
      AttemptFlushOthers(p, time);
    }

    method BroadcastAt(p: Tid, time: int, e: Event)
      requires Valid() && p in tls
      modifies this`file, this`lastFlushed, this`lastFlushedCache, this`emitted, tls.Values
      ensures Valid() && View() == Broadcast(cfg, old(View()), p, time, e)
    {
      hide Touch, FlushOthers;
      TraceAndFlush(p, time, e);
      ReleaseAllThreadLocks(time);
    }

    /** An event traced with all thread locks held. The caller holds the start/finish lock. */
    method TraceGlobally(p: Tid, e: Event)
      requires Valid() && p in tls
      modifies this`file, this`lastFlushed, this`lastFlushedCache, this`emitted, tls.Values
      ensures Valid() && View() == Broadcast(cfg, old(View()), p, MaxClock(old(View()).threads, live) + 1, e)
    {
      hide Broadcast, MaxClock;
      var time := AcquireAllThreadLocks();
      time := time + 1;
      BroadcastAt(p, time, e);
    }

    /** `change_roi_a`: the flag changes while all thread locks are held. */
    method ChangeRoi(p: Tid, newRoi: bool)
      requires Valid() && p in tls
      modifies this`inRoi, this`file, this`lastFlushed, this`lastFlushedCache, this`emitted, tls.Values
      ensures Valid() && inRoi == newRoi
      ensures View() == Broadcast(cfg, old(View()), p, MaxClock(old(View()).threads, live) + 1,
                                  if newRoi then StartRoi else EndRoi)
    {
      hide Broadcast, MaxClock;
      var time := AcquireAllThreadLocks();
      time := time + 1;
      ghost var s := View();
      inRoi := newRoi;
      assert Threads() == s.threads;
      BroadcastAt(p, time, if newRoi then StartRoi else EndRoi);
    }

    // ----- the bank of address locks -----

    /** `acquire_address_locks`: the list of locks and the highest of their stamps. */
    method AcquireAddressLocks(p: Tid, a: Access, stamps: array<int>) returns (maxTime: int)
      requires Valid() && p in tls && tls[p].indexLockList == [] && Legal(a)
      requires IsPower2(cfg.blockSize) && cfg.numLocks >= 1 && stamps.Length == cfg.numLocks
      modifies Get(p)`indexLockList
      ensures tls[p].indexLockList == LockList(a, cfg.blockSize, cfg.numLocks)
      ensures 0 <= maxTime && (forall i :: i in tls[p].indexLockList ==> i < stamps.Length && stamps[i] <= maxTime)
      ensures maxTime == 0 || exists i :: i in tls[p].indexLockList && i < stamps.Length && stamps[i] == maxTime
    {
      var log := BinaryLog(cfg.blockSize);
      var list := UniqueLocks(a, log, cfg.blockSize, cfg.numLocks);
      LockListInBank(a, cfg.blockSize, cfg.numLocks);
      tls[p].indexLockList := list;
      maxTime := MaxStamp(list, stamps);
    }

    /** `release_address_locks`: every lock of the list gets the thread's clock as its stamp. */
    method ReleaseAddressLocks(p: Tid, stamps: array<int>)
      requires Valid() && p in tls && forall i :: i in tls[p].indexLockList ==> i < stamps.Length
      modifies Get(p)`indexLockList, stamps
      ensures tls[p].indexLockList == []
      ensures forall i :: 0 <= i < stamps.Length ==>
                stamps[i] == if i in old(tls[p].indexLockList) then tls[p].clock else old(stamps[i])
    {
      var list := tls[p].indexLockList;
      for k := 0 to |list|
        invariant forall i :: 0 <= i < stamps.Length ==>
                    stamps[i] == if i in list[..k] then tls[p].clock else old(stamps[i])
      {
        assert list[k] in list && list[..k + 1] == list[..k] + [list[k]];
        stamps[list[k]] := tls[p].clock;
      }
      assert list[..|list|] == list;
      tls[p].indexLockList := [];
    }
  }
}
