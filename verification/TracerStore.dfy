/**
  The data the tracer's routines share: thread buffers and Lamport clocks, the set of live
  threads, the last-flushed table with its cache, and the trace file. Each function below is what
  one routine does to that data while it holds the locks that protect it.
*/
module TracerStore {
  import opened TraceLine

  type Tid = nat

  /** The command-line settings; `lag` is the allowed timestamp difference. */
  datatype Config = Config(
    numLocks: int,
    blockSize: int,
    accessesFlush: int,
    lag: int,
    registerThreads: bool,
    requireRoi: bool,
    logCasFails: bool)

  /** `uid` is -1 until the thread registers. */
  datatype ThreadData = ThreadData(uid: int, clock: int, buffer: seq<Line>)

  /** One row of the last-flushed table, which is kept in order of time. */
  datatype Flushed = Flushed(time: int, tid: Tid)

  /** `emitted` is a history variable: every line ever put in a buffer, in order. */
  datatype Store = Store(
    threads: map<Tid, ThreadData>,
    live: set<Tid>,
    lastFlushed: seq<Flushed>,
    cache: int,
    file: seq<Line>,
    emitted: seq<Line>)

  const EMPTY_STORE := Store(map[], {}, [], 0, [], [])

  // ----- the last-flushed table -----

  predicate HasTid(lf: seq<Flushed>, p: Tid) {
    exists i :: 0 <= i < |lf| && lf[i].tid == p
  }

  function Erase(lf: seq<Flushed>, p: Tid): seq<Flushed> {
    if lf == [] then []
    else if lf[0].tid == p then Erase(lf[1..], p)
    else [lf[0]] + Erase(lf[1..], p)
  }

  /** A new row goes after the rows that are as old. */
  function InsertSorted(lf: seq<Flushed>, e: Flushed): seq<Flushed> {
    if lf == [] then [e]
    else if lf[0].time <= e.time then [lf[0]] + InsertSorted(lf[1..], e)
    else [e] + lf
  }

  /** A second row for the same thread is refused. */
  function Insert(lf: seq<Flushed>, p: Tid, time: int): seq<Flushed> {
    if HasTid(lf, p) then lf else InsertSorted(lf, Flushed(time, p))
  }

  // ----- routines -----

  function Emit(s: Store, p: Tid, l: Line): Store
    requires p in s.threads
  {
    s.(threads := s.threads[p := s.threads[p].(buffer := s.threads[p].buffer + [l])],
       emitted := s.emitted + [l])
  }

  function SetClock(s: Store, p: Tid, time: int): Store
    requires p in s.threads
  {
    s.(threads := s.threads[p := s.threads[p].(clock := time)])
  }

  /** Moves the buffer to the file and notes the time in the last-flushed table. */
  function WriteOut(s: Store, p: Tid, time: int): Store
    requires p in s.threads
  {
    s.(threads := s.threads[p := s.threads[p].(buffer := [])],
       file := s.file + s.threads[p].buffer,
       lastFlushed := Insert(Erase(s.lastFlushed, p), p, time))
  }

  /** The test `diff >= timestamp_difference * .75`. */
  predicate Lags(cfg: Config, diff: int) {
    4 * diff >= 3 * cfg.lag
  }

  /** The threads at the front of the table that lag behind `time`. */
  function Laggards(cfg: Config, lf: seq<Flushed>, time: int): (us: seq<Tid>)
    ensures |us| <= |lf|
  {
    if lf == [] || !Lags(cfg, time - lf[0].time) then []
    else [lf[0].tid] + Laggards(cfg, lf[1..], time)
  }

  /** The new value of the cache and the threads to flush, decided after a write to the file. */
  function Recheck(cfg: Config, lf: seq<Flushed>, cache: int, time: int): (int, seq<Tid>) {
    if time - cache <= cfg.lag || lf == [] then (cache, [])
    else if time - lf[0].time <= cfg.lag then (lf[0].time, [])
    else
      var us := Laggards(cfg, lf, time);
      (if |us| < |lf| then lf[|us|].time else lf[0].time, us)
  }

  datatype Touched = Touched(store: Store, others: seq<Tid>)

  /** `touch_buffer` up to the point where it turns to the other threads. */
  function Touch(cfg: Config, s: Store, p: Tid, time: int, force: bool): Touched
    requires p in s.threads
  {
    var t := SetClock(s, p, time);
    if |t.threads[p].buffer| >= cfg.accessesFlush || force then
      var w := WriteOut(t, p, time);
      var r := Recheck(cfg, w.lastFlushed, w.cache, time);
      Touched(w.(cache := r.0), r.1)
    else
      Touched(t, [])
  }

  /** One round of `attempt_flush_others`. */
  function FlushOther(cfg: Config, s: Store, u: Tid, time: int): Store
    requires s.live <= s.threads.Keys
  {
    if u !in s.live || !Lags(cfg, time - s.threads[u].clock) then s
    else
      var uid := s.threads[u].uid;
      var t := SetClock(if uid >= 0 then Emit(s, u, Line(time, uid, Sync)) else s, u, time);
      if t.threads[u].buffer != [] then WriteOut(t, u, time) else t
  }

  function FlushOthers(cfg: Config, s: Store, us: seq<Tid>, time: int): (t: Store)
    requires s.live <= s.threads.Keys
    ensures t.live == s.live && t.threads.Keys == s.threads.Keys
  {
    if us == [] then s
    else FlushOther(cfg, FlushOthers(cfg, s, us[..|us| - 1], time), us[|us| - 1], time)
  }

  /** The highest clock among `ps`, 0 when there is none. */
  ghost function MaxClock(threads: map<Tid, ThreadData>, ps: set<Tid>): (m: int)
    requires ps <= threads.Keys
    ensures 0 <= m
    ensures forall p :: p in ps ==> threads[p].clock <= m
    ensures m == 0 || exists p :: p in ps && threads[p].clock == m
  {
    if ps == {} then 0
    else
      var p :| p in ps;
      var m := MaxClock(threads, ps - {p});
      if threads[p].clock > m then threads[p].clock else m
  }

  function SetClocks(s: Store, ps: set<Tid>, time: int): Store
    requires ps <= s.threads.Keys
  {
    s.(threads := map q | q in s.threads :: if q in ps then s.threads[q].(clock := time) else s.threads[q])
  }

  /** An event traced while all thread locks are held: line, forced flush, laggards, new clocks. */
  function Broadcast(cfg: Config, s: Store, p: Tid, time: int, e: Event): Store
    requires p in s.threads && s.live <= s.threads.Keys
  {
    var t := Touch(cfg, Emit(s, p, Line(time, s.threads[p].uid, e)), p, time, true);
    SetClocks(FlushOthers(cfg, t.store, t.others, time), s.live, time)
  }

  /** `register_thread_a`: the thread takes its id and its `tr` line is broadcast. */
  function RegisterThread(cfg: Config, s: Store, p: Tid, uid: int, time: int): Store
    requires p in s.threads && s.live <= s.threads.Keys
  {
    Broadcast(cfg, s.(threads := s.threads[p := s.threads[p].(uid := uid)]), p, time, Register)
  }

  /** `thread_start_a`: the new thread joins the live set after its `tr` line, if it has one. */
  function StartThread(cfg: Config, s: Store, p: Tid, uid: int, time: int): Store
    requires s.live <= s.threads.Keys
  {
    var born := s.(threads := s.threads[p := ThreadData(uid, 0, [])]);
    var t := if cfg.registerThreads then born else Broadcast(cfg, born, p, time, Register);
    t.(live := t.live + {p}, lastFlushed := Insert(t.lastFlushed, p, 0))
  }

  /** `thread_fini_a`: a registered thread broadcasts `tf`; what is left in the buffer is written. */
  function FinishThread(cfg: Config, s: Store, p: Tid, time: int): Store
    requires p in s.threads && s.live <= s.threads.Keys
  {
    var t := if s.threads[p].uid >= 0 then Broadcast(cfg, s, p, time, Finish) else s;
    var gone := t.(live := t.live - {p});
    if gone.threads[p].buffer != [] then
      gone.(file := gone.file + gone.threads[p].buffer,
            threads := gone.threads[p := gone.threads[p].(buffer := [])],
            lastFlushed := Erase(gone.lastFlushed, p))
    else gone
  }
}
