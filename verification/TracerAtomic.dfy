/**
  Atomic instrumentation: in every interleaving, accesses that share a byte or a thread are stamped
  in the order in which they execute, although line and execution are separate steps.
*/
module TracerAtomic {
  import opened Options
  import opened TraceLine
  import opened Access
  import opened LockArithmetic
  import opened Replay
  import opened TracerStore
  import opened TracerFile
  import opened TracerCore
  import opened Tracer

  // ----- clocks only rise -----

  lemma {:induction false} FlushOthersRise(cfg: Config, s: Store, us: seq<Tid>, time: int)
    requires cfg.lag > 0 && s.live <= s.threads.Keys
    ensures Evolves(s, FlushOthers(cfg, s, us, time))
    ensures (forall q :: q in s.live ==> s.threads[q].clock <= time) ==>
            forall q :: q in s.live ==> FlushOthers(cfg, s, us, time).threads[q].clock <= time
    decreases |us|
  {
    if us != [] {
      FlushOthersRise(cfg, s, us[..|us| - 1], time);
      FlushOtherClocks(cfg, FlushOthers(cfg, s, us[..|us| - 1], time), us[|us| - 1], time);
    }
  }

  lemma BroadcastRises(cfg: Config, s: Store, p: Tid, n: int, e: Event)
    requires cfg.lag > 0 && s.live <= s.threads.Keys && p in s.threads && s.threads[p].clock <= n
    requires forall q :: q in s.live ==> s.threads[q].clock <= n
    ensures Evolves(s, Broadcast(cfg, s, p, n, e))
  {
    var l := Line(n, s.threads[p].uid, e);
    var t := Touch(cfg, Emit(s, p, l), p, n, true);
    TouchClocks(cfg, s, p, l, true);
    FlushOthersRise(cfg, t.store, t.others, n);
    SetClocksRises(FlushOthers(cfg, t.store, t.others, n), n);
  }

  ghost predicate ClocksRise(c: Core, d: Core) {
    && c.store.threads.Keys <= d.store.threads.Keys
    && forall q :: q in c.store.threads ==> c.store.threads[q].clock <= d.store.threads[q].clock
  }

  lemma FinishRises(cfg: Config, s: Store, p: Tid, n: int)
    requires cfg.lag > 0 && s.live <= s.threads.Keys && p in s.threads && s.threads[p].clock <= n
    requires forall q :: q in s.live ==> s.threads[q].clock <= n
    ensures var t := FinishThread(cfg, s, p, n);
            && t.threads.Keys == s.threads.Keys && t.live == s.live - {p}
            && forall q :: q in s.threads ==> s.threads[q].clock <= t.threads[q].clock
  {
    hide Broadcast, Erase;
    BroadcastRises(cfg, s, p, n, Finish);
  }

  lemma StartRises(cfg: Config, s: Store, p: Tid, uid: int, n: int)
    requires cfg.lag > 0 && s.live <= s.threads.Keys && p !in s.threads && 0 <= n
    requires forall q :: q in s.live ==> s.threads[q].clock <= n
    ensures var t := StartThread(cfg, s, p, uid, n);
            && t.threads.Keys == s.threads.Keys + {p} && t.live == s.live + {p}
            && forall q :: q in s.threads ==> s.threads[q].clock <= t.threads[q].clock
  {
    hide Broadcast, Insert;
    BroadcastRises(cfg, Named(s, p, ThreadData(uid, 0, [])), p, n, Register);
  }

  /** Clocks only rise, and only starting and finishing change who is there and who is live. */
  lemma StepMovesThreads(cfg: Config, c: Core, l: CoreLabel)
    requires cfg.lag > 0 && CoreEnabled(cfg, c, l)
    ensures var t := CoreNext(cfg, c, l);
            && ClocksRise(c, t)
            && t.store.threads.Keys == (if l.Begin? then c.store.threads.Keys + {l.p} else c.store.threads.Keys)
            && t.store.live == if l.Begin? then c.store.live + {l.p}
                               else if l.End? then c.store.live - {l.p}
                               else c.store.live
  {
    hide Touch, Broadcast, FlushOther, StartThread, FinishThread;
    var s := c.store;
    match l
    case Local(p, time, e) => TouchClocks(cfg, s, p, Line(time, s.threads[p].uid, e), false);
    case FlushOne(p) => FlushOtherClocks(cfg, s, c.pending[p].others[0], c.pending[p].time);
    case Announce(p, e) => BroadcastRises(cfg, s, p, NextTime(s), e);
    case Join(p, uid) => BroadcastRises(cfg, Named(s, p, s.threads[p].(uid := uid)), p, NextTime(s), Register);
    case Begin(p, uid) => StartRises(cfg, s, p, uid, NextTime(s));
    case End(p) => FinishRises(cfg, s, p, NextTime(s));
    case FlushEnter(p) =>
    case FlushLeave(p) =>
  }

  // ----- the invariant -----

  /** Same thread, or a common lock. */
  ghost predicate Related(cfg: Config, e: Entry, p: Tid, a: Access)
    requires cfg.blockSize >= 1 && cfg.numLocks >= 1
  {
    e.tid == p || exists i :: i in Locks(cfg, e.access) && i in Locks(cfg, a)
  }

  ghost predicate Owns(s: State, p: Tid)
    requires p in s.control
  {
    forall i: nat :: i in s.control[p].held ==> i < |s.owners| && s.owners[i] == Some(p)
  }

  ghost predicate OwnersOk(cfg: Config, s: State) {
    && |s.stamps| == |s.owners| == cfg.numLocks
    && s.control.Keys == s.core.store.threads.Keys
    && (forall p :: p in s.control ==> StrictlyAscending(s.control[p].held))
    && (forall p :: p in s.control ==> Owns(s, p))
  }

  ghost predicate StageOk(cfg: Config, s: State, p: Tid)
    requires p in s.control && p in s.core.store.threads && cfg.blockSize >= 1 && cfg.numLocks >= 1
  {
    var Control(st, held) := s.control[p];
    match st
    case Between => true
    case Locking(a, todo, _) => Legal(a) && held + todo == Locks(cfg, a)
    case Ready(a, time) => Legal(a) && held == Locks(cfg, a) && time <= Clock(s, p)
    case Executed(a, _, at) =>
      && Legal(a) && held == Locks(cfg, a) && at < |s.log|
      && s.log[at].tid == p && s.log[at].access == a && s.log[at].stamp == None
  }

  /** What the thread will stamp above: the highest stamp seen while locking, then its clock. */
  function Seen(s: State, p: Tid): int
    requires p in s.control && p in s.core.store.threads
  {
    match s.control[p].stage
    case Locking(_, _, seen) => seen
    case Executed(_, seen, _) => seen
    case _ => Clock(s, p)
  }

  ghost predicate SeenOk(s: State, p: Tid)
    requires p in s.control && p in s.core.store.threads
  {
    forall i :: i in s.control[p].held && i < |s.stamps| ==> s.stamps[i] <= Seen(s, p)
  }

  ghost predicate EntryOk(s: State, k: nat)
    requires k < |s.log|
  {
    var e := s.log[k];
    && e.tid in s.control && e.tid in s.core.store.threads && Legal(e.access)
    && (e.stamp.Some? ==> e.stamp.value <= Clock(s, e.tid))
    && (e.stamp.None? ==> s.control[e.tid].stage.Executed? && s.control[e.tid].stage.at == k)
  }

  /** A lock's stamp, or the clock of the thread that holds it, has reached every access under it. */
  ghost predicate Bounded(s: State, i: nat, t: int) {
    && i < |s.stamps| == |s.owners|
    && (t <= s.stamps[i]
        || (s.owners[i].Some? && s.owners[i].value in s.core.store.threads && t <= Clock(s, s.owners[i].value)))
  }

  ghost predicate LogOk(cfg: Config, s: State)
    requires cfg.blockSize >= 1 && cfg.numLocks >= 1
  {
    && (forall k :: 0 <= k < |s.log| ==> EntryOk(s, k))
    && (forall k, i :: 0 <= k < |s.log| && s.log[k].stamp.Some? && i in Locks(cfg, s.log[k].access) ==>
          Bounded(s, i, s.log[k].stamp.value))
  }

  /** A stamped access that is about to execute is stamped above everything it is related to. */
  ghost predicate ReadyOk(cfg: Config, s: State, p: Tid)
    requires p in s.control && cfg.blockSize >= 1 && cfg.numLocks >= 1
  {
    s.control[p].stage.Ready? ==>
      forall k :: 0 <= k < |s.log| && s.log[k].stamp.Some? && Related(cfg, s.log[k], p, s.control[p].stage.access) ==>
        s.log[k].stamp.value < s.control[p].stage.time
  }

  /** Nothing related has executed after an access that still waits for its stamp. */
  ghost predicate ExecutedOk(cfg: Config, s: State, p: Tid)
    requires p in s.control && cfg.blockSize >= 1 && cfg.numLocks >= 1
  {
    s.control[p].stage.Executed? ==>
      forall k :: s.control[p].stage.at < k < |s.log| ==> !Related(cfg, s.log[k], p, s.control[p].stage.access)
  }

  ghost predicate Ordered(cfg: Config, log: seq<Entry>)
    requires cfg.blockSize >= 1 && cfg.numLocks >= 1
  {
    forall j, k :: 0 <= j < k < |log| && log[j].stamp.Some? && log[k].stamp.Some?
                   && Related(cfg, log[j], log[k].tid, log[k].access) ==>
      log[j].stamp.value < log[k].stamp.value
  }

  ghost predicate ThreadsOk(cfg: Config, s: State)
    requires cfg.blockSize >= 1 && cfg.numLocks >= 1
  {
    forall p :: p in s.control ==>
      p in s.core.store.threads && StageOk(cfg, s, p) && SeenOk(s, p) && ReadyOk(cfg, s, p) && ExecutedOk(cfg, s, p)
  }

  ghost predicate AtomicInv(cfg: Config, s: State) {
    && Sane(cfg)
    && OwnersOk(cfg, s)
    && ThreadsOk(cfg, s)
    && LogOk(cfg, s)
    && Ordered(cfg, s.log)
    && Reproduces(s.initial, s.log) && s.memory == RunFrom(s.initial, s.log)
  }

  lemma InitialInv(cfg: Config, m: Memory)
    requires Sane(cfg)
    ensures AtomicInv(cfg, Initial(cfg, m))
  {
  }

  // ----- steps outside instructions -----

  /** Steps that change no instruction, lock, log or memory, and only raise clocks. */
  lemma QuietStep(cfg: Config, s: State, t: State)
    requires AtomicInv(cfg, s) && ClocksRise(s.core, t.core)
    requires t == s.(core := t.core, control := t.control, inRoi := t.inRoi)
    requires t.control.Keys == t.core.store.threads.Keys && s.control.Keys <= t.control.Keys
    requires forall p :: p in t.control ==>
               t.control[p] == if p in s.control then s.control[p] else Control(Between, [])
    ensures AtomicInv(cfg, t)
  {
    hide Locks, StageOk, SeenOk, ReadyOk, ExecutedOk, Reproduces, RunFrom, Ordered, EntryOk, Bounded, Related;
    forall p | p in t.control ensures ThreadOk(cfg, t, p) {
      if p in s.control {
        BystanderKeeps(cfg, s, t, p);
      } else {
        NewThread(cfg, t, p);
      }
    }
    QuietOwners(cfg, s, t);
    BoundsRise(s, t);
    LogKeeps(cfg, s, t);
  }

  lemma NewThread(cfg: Config, t: State, p: Tid)
    requires cfg.blockSize >= 1 && cfg.numLocks >= 1 && p in t.core.store.threads
    requires p in t.control && t.control[p] == Control(Between, [])
    ensures ThreadOk(cfg, t, p)
  {
  }

  lemma QuietOwners(cfg: Config, s: State, t: State)
    requires OwnersOk(cfg, s) && t.stamps == s.stamps && t.owners == s.owners
    requires t.control.Keys == t.core.store.threads.Keys
    requires forall p :: p in t.control ==>
               t.control[p] == if p in s.control then s.control[p] else Control(Between, [])
    ensures OwnersOk(cfg, t)
  {
    forall p | p in t.control ensures Owns(t, p) {
      if p in s.control {
        assert Owns(s, p);
      }
    }
  }

  lemma KeysAgree(cfg: Config, s: State)
    requires AtomicInv(cfg, s)
    ensures cfg.lag > 0 && s.control.Keys == s.core.store.threads.Keys
  {
  }

  lemma OtherKeeps(cfg: Config, s: State, c: CoreLabel)
    requires AtomicInv(cfg, s) && Enabled(cfg, s, Other(c))
    ensures AtomicInv(cfg, Next(cfg, s, Other(c)))
  {
    hide Enabled, Next, CoreNext, CoreEnabled, ClocksRise, AtomicInv;
    OtherShape(cfg, s, c);
    KeysAgree(cfg, s);
    StepMovesThreads(cfg, s.core, c);
    QuietStep(cfg, s, Next(cfg, s, Other(c)));
  }

  // ----- locking and unlocking -----

  ghost predicate ThreadOk(cfg: Config, s: State, q: Tid)
    requires cfg.blockSize >= 1 && cfg.numLocks >= 1
  {
    && q in s.control && q in s.core.store.threads
    && StageOk(cfg, s, q) && SeenOk(s, q) && ReadyOk(cfg, s, q) && ExecutedOk(cfg, s, q)
  }

  lemma ThreadIsOk(cfg: Config, s: State, q: Tid)
    requires AtomicInv(cfg, s) && q in s.control
    ensures ThreadOk(cfg, s, q)
  {
  }

  /** Entry `k` of the longer log is old, or stamps or adds an access that `q`'s access is not related to. */
  ghost predicate NotConcerned(cfg: Config, s: State, t: State, q: Tid, k: nat)
    requires q in s.control && k < |t.log| && cfg.blockSize >= 1 && cfg.numLocks >= 1
  {
    var st, e := s.control[q].stage, t.log[k];
    if k < |s.log| then
      || e == s.log[k]
      || (&& e.access == s.log[k].access && e.tid == s.log[k].tid != q
          && (st.Ready? ==> !Related(cfg, e, q, st.access)))
    else e.tid != q && (st.Ready? || st.Executed? ==> !Related(cfg, e, q, st.access))
  }

  /**
    A thread that a step leaves alone stays as good as it was: clocks rise, its locks keep their
    stamps, the log grows by unrelated entries.
  */
  lemma BystanderKeeps(cfg: Config, s: State, t: State, q: Tid)
    requires AtomicInv(cfg, s) && q in s.control && q in t.control && t.control[q] == s.control[q]
    requires ClocksRise(s.core, t.core)
    requires |t.stamps| == |s.stamps|
    requires forall i :: i in s.control[q].held && i < |s.stamps| ==> t.stamps[i] == s.stamps[i]
    requires |s.log| <= |t.log| && forall k :: 0 <= k < |t.log| ==> NotConcerned(cfg, s, t, q, k)
    ensures ThreadOk(cfg, t, q)
  {
    ThreadIsOk(cfg, s, q);
    var st := s.control[q].stage;
    hide NotConcerned, Related, Locks;
    if st.Executed? {
      assert NotConcerned(cfg, s, t, q, st.at);
      OldEntryStays(cfg, s, t, q, st.at);
      forall k | st.at < k < |t.log| ensures !Related(cfg, t.log[k], q, st.access) {
        assert NotConcerned(cfg, s, t, q, k);
        StillUnrelated(cfg, s, t, q, k);
      }
    }
    if st.Ready? {
      forall k | 0 <= k < |t.log| && t.log[k].stamp.Some? && Related(cfg, t.log[k], q, st.access)
        ensures t.log[k].stamp.value < st.time
      {
        assert NotConcerned(cfg, s, t, q, k);
        RelatedIsOld(cfg, s, t, q, k);
      }
    }
  }

  /** `q`'s own entry is left as it was. */
  lemma OldEntryStays(cfg: Config, s: State, t: State, q: Tid, k: nat)
    requires q in s.control && k < |s.log| <= |t.log| && cfg.blockSize >= 1 && cfg.numLocks >= 1
    requires NotConcerned(cfg, s, t, q, k) && s.log[k].tid == q
    ensures t.log[k] == s.log[k]
  {
  }

  lemma StillUnrelated(cfg: Config, s: State, t: State, q: Tid, k: nat)
    requires q in s.control && |s.log| <= |t.log| && k < |t.log| && cfg.blockSize >= 1 && cfg.numLocks >= 1
    requires NotConcerned(cfg, s, t, q, k) && s.control[q].stage.Executed?
    requires k < |s.log| ==> !Related(cfg, s.log[k], q, s.control[q].stage.access)
    ensures !Related(cfg, t.log[k], q, s.control[q].stage.access)
  {
  }

  lemma RelatedIsOld(cfg: Config, s: State, t: State, q: Tid, k: nat)
    requires q in s.control && |s.log| <= |t.log| && k < |t.log| && cfg.blockSize >= 1 && cfg.numLocks >= 1
    requires NotConcerned(cfg, s, t, q, k) && s.control[q].stage.Ready?
    requires Related(cfg, t.log[k], q, s.control[q].stage.access)
    ensures k < |s.log| && t.log[k] == s.log[k]
  {
    hide Related;
  }

  /** The log invariant when the log stays, no bound falls and the waiting entries keep waiting. */
  lemma LogKeeps(cfg: Config, s: State, t: State)
    requires AtomicInv(cfg, s) && t.log == s.log && ClocksRise(s.core, t.core)
    requires s.control.Keys <= t.control.Keys
    requires forall q :: q in s.control && s.control[q].stage.Executed? ==> t.control[q].stage == s.control[q].stage
    requires forall i, x :: Bounded(s, i, x) ==> Bounded(t, i, x)
    ensures LogOk(cfg, t)
  {
    forall k | 0 <= k < |t.log| ensures EntryOk(t, k) {
      assert EntryOk(s, k);
    }
  }

  lemma BoundsRise(s: State, t: State)
    requires ClocksRise(s.core, t.core) && t.stamps == s.stamps && t.owners == s.owners
    ensures forall i, x :: Bounded(s, i, x) ==> Bounded(t, i, x)
  {
  }

  lemma HeaderKeeps(cfg: Config, s: State, p: Tid, a: Access)
    requires AtomicInv(cfg, s) && Enabled(cfg, s, Header(p, a))
    ensures AtomicInv(cfg, Next(cfg, s, Header(p, a)))
  {
    HeaderState(cfg, s, Next(cfg, s, Header(p, a)), p, a);
  }

  lemma HeaderState(cfg: Config, s: State, t: State, p: Tid, a: Access)
    requires AtomicInv(cfg, s) && Legal(a) && Idle(s, p)
    requires t == s.(control := s.control[p := Control(Locking(a, Locks(cfg, a), 0), [])])
    ensures AtomicInv(cfg, t)
  {
    hide Locks, StageOk, SeenOk, ReadyOk, ExecutedOk, Reproduces, RunFrom, Ordered, EntryOk, Bounded, Related;
    ThreadIsOk(cfg, s, p);
    forall q | q in t.control ensures ThreadOk(cfg, t, q) {
      if q != p {
        BystanderKeeps(cfg, s, t, q);
      } else {
        LockingThread(cfg, t, p, a);
      }
    }
    BoundsRise(s, t);
    LogKeeps(cfg, s, t);
  }

  /** A thread about to take its first lock. */
  lemma LockingThread(cfg: Config, t: State, p: Tid, a: Access)
    requires cfg.blockSize >= 1 && cfg.numLocks >= 1 && Legal(a) && p in t.core.store.threads
    requires p in t.control && t.control[p] == Control(Locking(a, Locks(cfg, a), 0), [])
    ensures ThreadOk(cfg, t, p)
  {
    assert [] + Locks(cfg, a) == Locks(cfg, a);
  }

  lemma LockKeeps(cfg: Config, s: State, p: Tid)
    requires AtomicInv(cfg, s) && Enabled(cfg, s, Lock(p))
    ensures AtomicInv(cfg, Next(cfg, s, Lock(p)))
  {
    var st := s.control[p].stage;
    LockState(cfg, s, Next(cfg, s, Lock(p)), p, st.access, st.todo, st.seen);
  }

  lemma LockState(cfg: Config, s: State, t: State, p: Tid, a: Access, todo: seq<nat>, seen: int)
    requires AtomicInv(cfg, s) && p in s.control && s.control[p].stage == Locking(a, todo, seen)
    requires todo != [] && todo[0] < |s.owners| == |s.stamps| && s.owners[todo[0]] == None
    requires var seen' := Max(seen, s.stamps[todo[0]]);
             t == s.(control := s.control[p := Control(Locking(a, todo[1..], seen'), s.control[p].held + [todo[0]])],
                     owners := s.owners[todo[0] := Some(p)])
    ensures AtomicInv(cfg, t)
  {
    var i := todo[0];
    ThreadIsOk(cfg, s, p);
    LockOrderKept(cfg, a, s.control[p].held, todo);
    LockTakenOwners(cfg, s, t, p, i);
    LockThreads(cfg, s, t, p, a, todo, seen);
    LockBounds(s, t, p, i);
    LogKeeps(cfg, s, t);
  }

  lemma LockBounds(s: State, t: State, p: Tid, i: nat)
    requires t.core == s.core && t.stamps == s.stamps && i < |s.owners| && s.owners[i] == None
    requires t.owners == s.owners[i := Some(p)]
    ensures forall i, x :: Bounded(s, i, x) ==> Bounded(t, i, x)
  {
  }

  lemma LockThreads(cfg: Config, s: State, t: State, p: Tid, a: Access, todo: seq<nat>, seen: int)
    requires AtomicInv(cfg, s) && p in s.control && s.control[p].stage == Locking(a, todo, seen)
    requires todo != [] && todo[0] < |s.stamps| && t.core == s.core && t.stamps == s.stamps && t.log == s.log
    requires var seen' := Max(seen, s.stamps[todo[0]]);
             t.control == s.control[p := Control(Locking(a, todo[1..], seen'), s.control[p].held + [todo[0]])]
    requires s.control[p].held + [todo[0]] + todo[1..] == Locks(cfg, a)
    ensures ThreadsOk(cfg, t)
  {
    ThreadIsOk(cfg, s, p);
    forall q | q in t.control ensures ThreadOk(cfg, t, q) {
      if q != p {
        BystanderKeeps(cfg, s, t, q);
      } else {
        assert forall j :: j in s.control[p].held + [todo[0]] ==> j in s.control[p].held || j == todo[0];
      }
    }
  }

  lemma LockOrderKept(cfg: Config, a: Access, held: seq<nat>, todo: seq<nat>)
    requires Sane(cfg) && Legal(a) && held + todo == Locks(cfg, a) && todo != []
    ensures held + [todo[0]] + todo[1..] == Locks(cfg, a)
    ensures StrictlyAscending(held + [todo[0]])
  {
    hide LockList;
    LockListMeaning(a, cfg.blockSize, cfg.numLocks);
    assert held + [todo[0]] + todo[1..] == held + todo;
    AscendingPrefix(held + [todo[0]], todo[1..]);
  }

  lemma AscendingPrefix(s: seq<nat>, t: seq<nat>)
    requires StrictlyAscending(s + t)
    ensures StrictlyAscending(s)
  {
    assert forall x :: 0 <= x < |s| ==> s[x] == (s + t)[x];
  }

  lemma LockTakenOwners(cfg: Config, s: State, t: State, p: Tid, i: nat)
    requires OwnersOk(cfg, s) && p in s.control && i < |s.owners| && s.owners[i] == None
    requires t.core == s.core && t.stamps == s.stamps && t.owners == s.owners[i := Some(p)]
    requires t.control.Keys == s.control.Keys && t.control[p].held == s.control[p].held + [i]
    requires forall q :: q in s.control && q != p ==> t.control[q] == s.control[q]
    requires StrictlyAscending(s.control[p].held + [i])
    ensures OwnersOk(cfg, t)
  {
    forall q | q in t.control ensures Owns(t, q) {
      assert Owns(s, q);
    }
  }

  lemma UnlockKeeps(cfg: Config, s: State, p: Tid)
    requires AtomicInv(cfg, s) && Enabled(cfg, s, Unlock(p))
    ensures AtomicInv(cfg, Next(cfg, s, Unlock(p)))
  {
    UnlockState(cfg, s, Next(cfg, s, Unlock(p)), p, s.control[p].held);
  }

  lemma UnlockedThread(cfg: Config, s: State, t: State, p: Tid, held: seq<nat>)
    requires AtomicInv(cfg, s) && p in s.control && s.control[p] == Control(Between, held)
    requires held != [] && held[0] < |s.owners| == |s.stamps| && p in s.core.store.threads
    requires t == s.(control := s.control[p := Control(Between, held[1..])],
                     stamps := s.stamps[held[0] := Clock(s, p)],
                     owners := s.owners[held[0] := None])
    ensures ThreadOk(cfg, t, p)
  {
    ThreadIsOk(cfg, s, p);
    assert forall j :: j in held[1..] ==> j in held;
  }

  /** A lock that a thread holds between instructions is its own, with a stamp its clock has reached. */
  lemma HeldIsOwned(cfg: Config, s: State, p: Tid, held: seq<nat>)
    requires AtomicInv(cfg, s) && p in s.control && s.control[p] == Control(Between, held)
    requires held != [] && held[0] < |s.owners| == |s.stamps| && p in s.core.store.threads
    ensures s.owners[held[0]] == Some(p) && s.stamps[held[0]] <= Clock(s, p)
  {
    ThreadIsOk(cfg, s, p);
    assert Owns(s, p) && held[0] in s.control[p].held;
  }

  lemma UnlockState(cfg: Config, s: State, t: State, p: Tid, held: seq<nat>)
    requires AtomicInv(cfg, s) && p in s.control && s.control[p] == Control(Between, held)
    requires held != [] && held[0] < |s.owners| == |s.stamps| && p in s.core.store.threads
    requires t == s.(control := s.control[p := Control(Between, held[1..])],
                     stamps := s.stamps[held[0] := Clock(s, p)],
                     owners := s.owners[held[0] := None])
    ensures AtomicInv(cfg, t)
  {
    hide Locks, StageOk, SeenOk, ReadyOk, ExecutedOk, Reproduces, RunFrom, Ordered, EntryOk, Bounded, Related;
    HeldIsOwned(cfg, s, p, held);
    UnlockBounds(s, t, p, held[0]);
    UnlockOwners(cfg, s, t, p);
    forall q | q in t.control ensures ThreadOk(cfg, t, q) {
      if q != p {
        assert Owns(s, q) && held[0] !in s.control[q].held;
        BystanderKeeps(cfg, s, t, q);
      } else {
        UnlockedThread(cfg, s, t, p, held);
      }
    }
    LogKeeps(cfg, s, t);
  }

  lemma UnlockBounds(s: State, t: State, p: Tid, i: nat)
    requires t.core == s.core && i < |s.owners| == |s.stamps| && p in s.core.store.threads
    requires s.owners[i] == Some(p) && s.stamps[i] <= Clock(s, p)
    requires t.owners == s.owners[i := None] && t.stamps == s.stamps[i := Clock(s, p)]
    ensures forall i, x :: Bounded(s, i, x) ==> Bounded(t, i, x)
  {
  }

  lemma UnlockOwners(cfg: Config, s: State, t: State, p: Tid)
    requires OwnersOk(cfg, s) && p in s.control && s.control[p].held != []
    requires t.core == s.core && |t.stamps| == |s.stamps| && s.control[p].held[0] < |s.owners|
    requires t.owners == s.owners[s.control[p].held[0] := None]
    requires t.control.Keys == s.control.Keys && t.control[p].held == s.control[p].held[1..]
    requires forall q :: q in s.control && q != p ==> t.control[q] == s.control[q]
    ensures OwnersOk(cfg, t)
  {
    var held := s.control[p].held;
    assert Owns(s, p);
    assert held[0] in held;
    forall q | q in t.control ensures Owns(t, q) {
      assert Owns(s, q);
      if q == p {
        forall j: nat | j in held[1..] ensures j in held && held[0] < j {
          var x :| 0 <= x < |held[1..]| && held[1..][x] == j;
          assert held[x + 1] == j;
        }
      }
    }
  }

  // ----- stamping and executing -----

  /** Two threads that both hold all locks of their instructions work on unrelated instructions. */
  lemma HoldersUnrelated(cfg: Config, s: State, p: Tid, q: Tid, e: Entry, a: Access)
    requires OwnersOk(cfg, s) && cfg.blockSize >= 1 && cfg.numLocks >= 1
    requires p in s.control && q in s.control && p != q && e.tid == p
    requires s.control[p].held == Locks(cfg, e.access) && s.control[q].held == Locks(cfg, a)
    ensures !Related(cfg, e, q, a)
  {
    assert Owns(s, p) && Owns(s, q);
    forall i: nat | i in Locks(cfg, e.access) ensures i !in Locks(cfg, a) {
      assert s.owners[i] == Some(p);
    }
  }

  /** A thread that holds its locks stamps above every related access that has a stamp. */
  lemma FreshStampAbove(cfg: Config, s: State, p: Tid, k: nat)
    requires AtomicInv(cfg, s) && p in s.control && k < |s.log| && s.log[k].stamp.Some?
    requires s.control[p].stage.Locking? || s.control[p].stage.Executed?
    requires s.control[p].held == Locks(cfg, s.control[p].stage.access)
    requires Related(cfg, s.log[k], p, s.control[p].stage.access)
    ensures s.log[k].stamp.value <= Max(Seen(s, p), Clock(s, p))
  {
    var e := s.log[k];
    assert EntryOk(s, k);
    if e.tid != p {
      var i :| i in Locks(cfg, e.access) && i in Locks(cfg, s.control[p].stage.access);
      assert Bounded(s, i, e.stamp.value);
      assert Owns(s, p) && SeenOk(s, p);
    }
  }

  lemma FooterRises(cfg: Config, s: State, p: Tid)
    requires AtomicInv(cfg, s) && Enabled(cfg, s, Footer(p))
    ensures var t, n := Next(cfg, s, Footer(p)), Max(Seen(s, p), Clock(s, p)) + 1;
            && ClocksRise(s.core, t.core) && t.core.store.threads.Keys == s.core.store.threads.Keys
            && p in t.core.store.threads && Clock(t, p) == n && FooterLabel(s, p).time == n
  {
    var f := FooterLabel(s, p);
    StepMovesThreads(cfg, s.core, f);
    TouchClocks(cfg, s.core.store, p, Line(f.time, s.core.store.threads[p].uid, f.event), false);
  }

  lemma FooterBeforeKeeps(cfg: Config, s: State, p: Tid)
    requires AtomicInv(cfg, s) && Enabled(cfg, s, Footer(p)) && s.control[p].stage.Locking?
    ensures AtomicInv(cfg, Next(cfg, s, Footer(p)))
  {
    FooterRises(cfg, s, p);
    FooterBeforeState(cfg, s, Next(cfg, s, Footer(p)), p, s.control[p].stage.access, Max(Seen(s, p), Clock(s, p)) + 1);
  }

  lemma FooterBeforeThread(cfg: Config, s: State, t: State, p: Tid, a: Access, n: int)
    requires AtomicInv(cfg, s) && p in s.control && s.control[p].stage.Locking?
    requires s.control[p].stage.access == a && s.control[p].stage.todo == [] && n == Max(Seen(s, p), Clock(s, p)) + 1
    requires t == s.(core := t.core, control := s.control[p := Control(Ready(a, n), s.control[p].held)])
    requires ClocksRise(s.core, t.core) && t.core.store.threads.Keys == s.core.store.threads.Keys && Clock(t, p) == n
    ensures ThreadOk(cfg, t, p)
  {
    ThreadIsOk(cfg, s, p);
    assert s.control[p].held + [] == s.control[p].held;
    forall k | 0 <= k < |t.log| && t.log[k].stamp.Some? && Related(cfg, t.log[k], p, a)
      ensures t.log[k].stamp.value < n
    {
      FreshStampAbove(cfg, s, p, k);
    }
  }

  lemma FooterBeforeState(cfg: Config, s: State, t: State, p: Tid, a: Access, n: int)
    requires AtomicInv(cfg, s) && p in s.control && s.control[p].stage.Locking?
    requires s.control[p].stage.access == a && s.control[p].stage.todo == [] && n == Max(Seen(s, p), Clock(s, p)) + 1
    requires t == s.(core := t.core, control := s.control[p := Control(Ready(a, n), s.control[p].held)])
    requires ClocksRise(s.core, t.core) && t.core.store.threads.Keys == s.core.store.threads.Keys && Clock(t, p) == n
    ensures AtomicInv(cfg, t)
  {
    hide Locks, StageOk, SeenOk, ReadyOk, ExecutedOk, Reproduces, RunFrom, Ordered, EntryOk, Bounded, Related;
    forall q | q in t.control ensures ThreadOk(cfg, t, q) {
      if q != p {
        BystanderKeeps(cfg, s, t, q);
      } else {
        FooterBeforeThread(cfg, s, t, p, a, n);
      }
    }
    assert t.control.Keys == s.control.Keys;
    OwnersKept(cfg, s, t);
    BoundsRise(s, t);
    LogKeeps(cfg, s, t);
  }

  /** Steps that neither take nor release locks. */
  lemma OwnersKept(cfg: Config, s: State, t: State)
    requires OwnersOk(cfg, s) && t.stamps == s.stamps && t.owners == s.owners
    requires t.control.Keys == s.control.Keys == t.core.store.threads.Keys
    requires forall q :: q in s.control ==> t.control[q].held == s.control[q].held
    ensures OwnersOk(cfg, t)
  {
    forall q | q in t.control ensures Owns(t, q) {
      assert Owns(s, q);
    }
  }

  /** Executing an instruction that is already stamped. */
  lemma RunAfterKeeps(cfg: Config, s: State, p: Tid)
    requires AtomicInv(cfg, s) && Enabled(cfg, s, Run(p)) && s.control[p].stage.Ready?
    ensures AtomicInv(cfg, Next(cfg, s, Run(p)))
  {
    var st := s.control[p].stage;
    RunState(cfg, s, Next(cfg, s, Run(p)), p, st.access, Some(st.time), Between);
  }

  /** Executing a compare-and-swap that is stamped afterwards. */
  lemma RunBeforeKeeps(cfg: Config, s: State, p: Tid)
    requires AtomicInv(cfg, s) && Enabled(cfg, s, Run(p)) && s.control[p].stage.Locking?
    ensures AtomicInv(cfg, Next(cfg, s, Run(p)))
  {
    var st := s.control[p].stage;
    ThreadIsOk(cfg, s, p);
    assert s.control[p].held + [] == s.control[p].held;
    RunState(cfg, s, Next(cfg, s, Run(p)), p, st.access, None, Executed(st.access, st.seen, |s.log|));
  }

  lemma RunState(cfg: Config, s: State, t: State, p: Tid, a: Access, stamp: Option<int>, after: Stage)
    requires AtomicInv(cfg, s) && p in s.control && Legal(a) && s.control[p].held == Locks(cfg, a)
    requires if stamp.Some? then s.control[p].stage == Ready(a, stamp.value) && after == Between
             else s.control[p].stage.Locking? && after == Executed(a, s.control[p].stage.seen, |s.log|)
    requires t == s.(control := s.control[p := Control(after, s.control[p].held)],
                     memory := Execute(a, s.memory),
                     log := s.log + [Entry(p, a, ReadBytes(a, s.memory), stamp)])
    ensures AtomicInv(cfg, t)
  {
    var e := Entry(p, a, ReadBytes(a, s.memory), stamp);
    hide Locks, SeenOk, ReadyOk, ExecutedOk, LogOk, Ordered, EntryOk, Bounded, Reproduces, RunFrom, ReadBytes, Execute;
    ThreadIsOk(cfg, s, p);
    RunAppend(s.initial, s.log, e);
    RunThreads(cfg, s, t, p, e, after);
    RunOrdered(cfg, s, e);
    RunLog(cfg, s, t, p, e, after);
    assert t.control.Keys == s.control.Keys;
    OwnersKept(cfg, s, t);
  }

  /** What executing an instruction does to thread and log. */
  ghost predicate Executes(cfg: Config, s: State, t: State, p: Tid, e: Entry, after: Stage) {
    && cfg.blockSize >= 1 && cfg.numLocks >= 1 && p in s.control && e.tid == p && Legal(e.access)
    && s.control[p].held == Locks(cfg, e.access)
    && (if e.stamp.Some? then s.control[p].stage == Ready(e.access, e.stamp.value) && after == Between
        else s.control[p].stage.Locking? && after == Executed(e.access, s.control[p].stage.seen, |s.log|))
    && t.control == s.control[p := Control(after, s.control[p].held)] && t.core == s.core
    && t.stamps == s.stamps && t.owners == s.owners && t.log == s.log + [e]
  }

  lemma RunSelf(cfg: Config, s: State, t: State, p: Tid, e: Entry, after: Stage)
    requires AtomicInv(cfg, s) && Executes(cfg, s, t, p, e, after)
    ensures ThreadOk(cfg, t, p)
  {
    hide Reproduces, RunFrom, Ordered, LogOk, OwnersOk, Related;
    ThreadIsOk(cfg, s, p);
  }

  lemma RunBystander(cfg: Config, s: State, t: State, p: Tid, e: Entry, after: Stage, q: Tid)
    requires AtomicInv(cfg, s) && Executes(cfg, s, t, p, e, after) && q in s.control && q != p
    ensures ThreadOk(cfg, t, q)
  {
    hide Reproduces, RunFrom, Ordered, LogOk;
    ThreadIsOk(cfg, s, q);
    if s.control[q].stage.Ready? || s.control[q].stage.Executed? {
      HoldersUnrelated(cfg, s, p, q, e, s.control[q].stage.access);
    }
    BystanderKeeps(cfg, s, t, q);
  }

  lemma RunThreads(cfg: Config, s: State, t: State, p: Tid, e: Entry, after: Stage)
    requires AtomicInv(cfg, s) && Executes(cfg, s, t, p, e, after)
    ensures ThreadsOk(cfg, t)
  {
    hide AtomicInv, StageOk, SeenOk, ReadyOk, ExecutedOk, Locks;
    forall q | q in t.control ensures ThreadOk(cfg, t, q) {
      if q == p {
        RunSelf(cfg, s, t, p, e, after);
      } else {
        RunBystander(cfg, s, t, p, e, after, q);
      }
    }
  }

  /** The new entry is stamped above everything related, or has no stamp yet. */
  lemma RunOrdered(cfg: Config, s: State, e: Entry)
    requires AtomicInv(cfg, s) && e.tid in s.control
    requires e.stamp.Some? ==> s.control[e.tid].stage == Ready(e.access, e.stamp.value)
    ensures Ordered(cfg, s.log + [e])
  {
    ThreadIsOk(cfg, s, e.tid);
    assert ReadyOk(cfg, s, e.tid);
  }

  lemma RunLog(cfg: Config, s: State, t: State, p: Tid, e: Entry, after: Stage)
    requires AtomicInv(cfg, s) && p in s.control && e.tid == p && Legal(e.access)
    requires s.control[p].held == Locks(cfg, e.access) && !s.control[p].stage.Executed?
    requires if e.stamp.Some? then p in s.core.store.threads && e.stamp.value <= Clock(s, p)
             else after.Executed? && after.at == |s.log|
    requires t.control == s.control[p := Control(after, s.control[p].held)] && t.core == s.core
    requires t.stamps == s.stamps && t.owners == s.owners && t.log == s.log + [e]
    ensures LogOk(cfg, t)
  {
    ThreadIsOk(cfg, s, p);
    forall k | 0 <= k < |t.log| ensures EntryOk(t, k) {
      if k < |s.log| {
        assert EntryOk(s, k);
      }
    }
    assert Owns(s, p);
    forall k, i | 0 <= k < |t.log| && t.log[k].stamp.Some? && i in Locks(cfg, t.log[k].access)
      ensures Bounded(t, i, t.log[k].stamp.value)
    {
      if k < |s.log| {
        assert Bounded(s, i, s.log[k].stamp.value);
      }
    }
  }

  /** Stamping a compare-and-swap that has executed. */
  lemma FooterAfterKeeps(cfg: Config, s: State, p: Tid)
    requires AtomicInv(cfg, s) && Enabled(cfg, s, Footer(p)) && s.control[p].stage.Executed?
    ensures AtomicInv(cfg, Next(cfg, s, Footer(p)))
  {
    FooterRises(cfg, s, p);
    FooterAfterState(cfg, s, Next(cfg, s, Footer(p)), p, s.control[p].stage.at, Max(Seen(s, p), Clock(s, p)) + 1);
  }

  lemma FooterAfterState(cfg: Config, s: State, t: State, p: Tid, at: nat, n: int)
    requires AtomicInv(cfg, s) && p in s.control && s.control[p].stage.Executed? && s.control[p].stage.at == at
    requires n == Max(Seen(s, p), Clock(s, p)) + 1 && at < |s.log|
    requires t == s.(core := t.core, control := s.control[p := Control(Between, s.control[p].held)],
                     log := s.log[at := s.log[at].(stamp := Some(n))])
    requires ClocksRise(s.core, t.core) && t.core.store.threads.Keys == s.core.store.threads.Keys && Clock(t, p) == n
    ensures AtomicInv(cfg, t)
  {
    hide Locks, SeenOk, ReadyOk, ExecutedOk, LogOk, Reproduces, RunFrom, Ordered, EntryOk, Bounded;
    ThreadIsOk(cfg, s, p);
    StampChangesNoRun(s.initial, s.log, at, n);
    StampThreads(cfg, s, t, p, at, n);
    StampOrdered(cfg, s, p, at, n);
    StampLog(cfg, s, t, p, at, n);
    assert t.control.Keys == s.control.Keys;
    OwnersKept(cfg, s, t);
  }

  lemma {:induction false} StampChangesNoRun(m: Memory, log: seq<Entry>, at: nat, n: int)
    requires at < |log|
    ensures var stamped := log[at := log[at].(stamp := Some(n))];
            RunFrom(m, stamped) == RunFrom(m, log) && Reproduces(m, stamped) == Reproduces(m, log)
    decreases at
  {
    var stamped := log[at := log[at].(stamp := Some(n))];
    if at == 0 {
      assert stamped[1..] == log[1..];
    } else {
      assert stamped[1..] == log[1..][at - 1 := log[1..][at - 1].(stamp := Some(n))];
      StampChangesNoRun(Execute(log[0].access, m), log[1..], at - 1, n);
    }
  }

  lemma StampThreads(cfg: Config, s: State, t: State, p: Tid, at: nat, n: int)
    requires AtomicInv(cfg, s) && p in s.control
    requires s.control[p].stage.Executed? && s.control[p].stage.at == at < |s.log|
    requires p in s.core.store.threads && p in t.core.store.threads && n >= Seen(s, p) && Clock(t, p) == n
    requires t.control == s.control[p := Control(Between, s.control[p].held)] && ClocksRise(s.core, t.core)
    requires t.stamps == s.stamps && t.owners == s.owners && t.log == s.log[at := s.log[at].(stamp := Some(n))]
    ensures ThreadsOk(cfg, t)
  {
    ThreadIsOk(cfg, s, p);
    assert ThreadOk(cfg, t, p);
    forall q | q in t.control && q != p ensures ThreadOk(cfg, t, q) {
      StampElsewhere(cfg, s, t, p, q, at);
    }
  }

  lemma StampElsewhere(cfg: Config, s: State, t: State, p: Tid, q: Tid, at: nat)
    requires AtomicInv(cfg, s) && p in s.control
    requires s.control[p].stage.Executed? && s.control[p].stage.at == at < |s.log|
    requires q in s.control && q in t.control && q != p && t.control[q] == s.control[q] && ClocksRise(s.core, t.core)
    requires t.stamps == s.stamps && |t.log| == |s.log| && t.log == s.log[at := t.log[at]]
    requires t.log[at].tid == s.log[at].tid && t.log[at].access == s.log[at].access
    ensures ThreadOk(cfg, t, q)
  {
    StampBystander(cfg, s, p, q, at, t.log[at]);
    BystanderKeeps(cfg, s, t, q);
  }

  lemma StampBystander(cfg: Config, s: State, p: Tid, q: Tid, at: nat, e: Entry)
    requires AtomicInv(cfg, s) && p in s.control
    requires s.control[p].stage.Executed? && s.control[p].stage.at == at < |s.log|
    requires q in s.control && q != p && e.tid == s.log[at].tid && e.access == s.log[at].access
    ensures e.tid == p
    ensures s.control[q].stage.Ready? ==> !Related(cfg, e, q, s.control[q].stage.access)
  {
    ThreadIsOk(cfg, s, p);
    ThreadIsOk(cfg, s, q);
    if s.control[q].stage.Ready? {
      HoldersUnrelated(cfg, s, p, q, e, s.control[q].stage.access);
    }
  }

  lemma StampOrdered(cfg: Config, s: State, p: Tid, at: nat, n: int)
    requires AtomicInv(cfg, s) && p in s.control
    requires s.control[p].stage.Executed? && s.control[p].stage.at == at < |s.log|
    requires n == Max(Seen(s, p), Clock(s, p)) + 1
    ensures Ordered(cfg, s.log[at := s.log[at].(stamp := Some(n))])
  {
    var log := s.log[at := s.log[at].(stamp := Some(n))];
    ThreadIsOk(cfg, s, p);
    forall j, k | 0 <= j < k < |log| && log[j].stamp.Some? && log[k].stamp.Some?
                  && Related(cfg, log[j], log[k].tid, log[k].access)
      ensures log[j].stamp.value < log[k].stamp.value
    {
      if k == at {
        assert Related(cfg, s.log[j], p, s.control[p].stage.access);
        FreshStampAbove(cfg, s, p, j);
      } else if j == at {
        assert Related(cfg, s.log[k], p, s.control[p].stage.access) by {
          RelatedBothWays(cfg, s.log[at], s.log[k]);
        }
        assert false;
      }
    }
  }

  lemma RelatedBothWays(cfg: Config, e: Entry, f: Entry)
    requires cfg.blockSize >= 1 && cfg.numLocks >= 1
    ensures Related(cfg, e, f.tid, f.access) ==> Related(cfg, f, e.tid, e.access)
  {
  }

  lemma StampLog(cfg: Config, s: State, t: State, p: Tid, at: nat, n: int)
    requires AtomicInv(cfg, s) && p in s.control
    requires s.control[p].stage.Executed? && s.control[p].stage.at == at < |s.log|
    requires p in t.core.store.threads && Clock(t, p) == n && ClocksRise(s.core, t.core)
    requires t.control == s.control[p := Control(Between, s.control[p].held)]
    requires t.stamps == s.stamps && t.owners == s.owners && t.log == s.log[at := s.log[at].(stamp := Some(n))]
    ensures LogOk(cfg, t)
  {
    ThreadIsOk(cfg, s, p);
    StampEntries(s, t, p, at, n);
    BoundsRise(s, t);
    forall i | i in Locks(cfg, s.log[at].access) ensures Bounded(t, i, n) {
      HolderBounds(cfg, s, t, p, i);
    }
    forall k, i | 0 <= k < |t.log| && t.log[k].stamp.Some? && i in Locks(cfg, t.log[k].access)
      ensures Bounded(t, i, t.log[k].stamp.value)
    {
      if k != at {
        assert Bounded(s, i, s.log[k].stamp.value);
      }
    }
  }

  lemma StampEntries(s: State, t: State, p: Tid, at: nat, n: int)
    requires p in s.control && s.control[p].stage.Executed? && s.control[p].stage.at == at < |s.log|
    requires forall k :: 0 <= k < |s.log| ==> EntryOk(s, k)
    requires s.log[at].tid == p && p in t.core.store.threads && Clock(t, p) == n && ClocksRise(s.core, t.core)
    requires t.control == s.control[p := Control(Between, s.control[p].held)]
    requires t.log == s.log[at := s.log[at].(stamp := Some(n))]
    ensures forall k :: 0 <= k < |t.log| ==> EntryOk(t, k)
  {
    forall k | 0 <= k < |t.log| ensures EntryOk(t, k) {
      assert EntryOk(s, k);
    }
  }

  /** The clock of a lock's holder bounds what is stamped with it. */
  lemma HolderBounds(cfg: Config, s: State, t: State, p: Tid, i: nat)
    requires OwnersOk(cfg, s) && p in s.control && i in s.control[p].held
    requires p in t.core.store.threads && t.stamps == s.stamps && t.owners == s.owners
    ensures Bounded(t, i, Clock(t, p))
  {
    assert Owns(s, p);
  }

  // ----- runs -----

  lemma StepIsAtomic(cfg: Config, s: State, l: Label)
    requires AtomicInv(cfg, s) && Enabled(cfg, s, l)
    ensures AtomicInv(cfg, Next(cfg, s, l))
  {
    match l
    case Header(p, a) => HeaderKeeps(cfg, s, p, a);
    case Lock(p) => LockKeeps(cfg, s, p);
    case Footer(p) =>
      if s.control[p].stage.Locking? {
        FooterBeforeKeeps(cfg, s, p);
      } else {
        FooterAfterKeeps(cfg, s, p);
      }
    case Run(p) =>
      if s.control[p].stage.Ready? {
        RunAfterKeeps(cfg, s, p);
      } else {
        RunBeforeKeeps(cfg, s, p);
      }
    case Unlock(p) => UnlockKeeps(cfg, s, p);
    case Other(c) => OtherKeeps(cfg, s, c);
  }

  lemma {:induction false} RunIsAtomic(cfg: Config, s: State, run: seq<Label>)
    requires AtomicInv(cfg, s) && ValidRun(cfg, s, run)
    ensures AtomicInv(cfg, Final(cfg, s, run)) && Final(cfg, s, run).initial == s.initial
    decreases |run|
  {
    if run != [] {
      StepIsAtomic(cfg, s, run[0]);
      RunIsAtomic(cfg, Next(cfg, s, run[0]), run[1..]);
    }
  }

  /**
    In every state that any interleaving of any threads can reach, two executed and stamped
    accesses that share a byte or a thread carry strictly increasing stamps in execution order.
  */
  lemma AtomicInstrumentation(cfg: Config, m: Memory, run: seq<Label>)
    requires Sane(cfg) && ValidRun(cfg, Initial(cfg, m), run)
    ensures ConflictsInOrder(Final(cfg, Initial(cfg, m), run).log)
  {
    InitialInv(cfg, m);
    RunIsAtomic(cfg, Initial(cfg, m), run);
    var log := Final(cfg, Initial(cfg, m), run).log;
    forall j, k | 0 <= j < k < |log| && Conflict(log[j], log[k]) && log[j].stamp.Some? && log[k].stamp.Some?
      ensures log[j].stamp.value < log[k].stamp.value
    {
      ConflictIsRelated(cfg, Final(cfg, Initial(cfg, m), run), j, k);
    }
  }

  lemma SharedByteRelated(cfg: Config, e: Entry, f: Entry)
    requires Sane(cfg) && Legal(e.access) && Legal(f.access) && Conflict(e, f)
    ensures Related(cfg, e, f.tid, f.access)
  {
    if e.tid != f.tid {
      SharedByteSharedLock(e.access, f.access, cfg.blockSize, cfg.numLocks);
      var i :|
        i in LockList(e.access, cfg.blockSize, cfg.numLocks) && i in LockList(f.access, cfg.blockSize, cfg.numLocks);
      assert i in Locks(cfg, e.access) && i in Locks(cfg, f.access);
    }
  }

  lemma ConflictIsRelated(cfg: Config, s: State, j: nat, k: nat)
    requires AtomicInv(cfg, s) && j < |s.log| && k < |s.log| && Conflict(s.log[j], s.log[k])
    ensures Related(cfg, s.log[j], s.log[k].tid, s.log[k].access)
  {
    assert EntryOk(s, j) && EntryOk(s, k);
    SharedByteRelated(cfg, s.log[j], s.log[k]);
  }

  /**
    Whenever every executed access has its line, replaying the accesses in the order of their
    stamps, ties in any order, gives every read the bytes it got in the real run, and the memory
    of the real run; and it touches every byte in the order in which the real run did.
  */
  lemma ReplayReproducesRun(cfg: Config, m: Memory, run: seq<Label>, replay: seq<Entry>)
    requires Sane(cfg) && ValidRun(cfg, Initial(cfg, m), run)
    requires var log := Final(cfg, Initial(cfg, m), run).log;
             Stamped(log) && multiset(replay) == multiset(log) && Stamped(replay) && ByStamp(replay)
    ensures Reproduces(m, replay)
    ensures RunFrom(m, replay) == Final(cfg, Initial(cfg, m), run).memory
    ensures SameByteOrder(replay, Final(cfg, Initial(cfg, m), run).log)
  {
    InitialInv(cfg, m);
    RunIsAtomic(cfg, Initial(cfg, m), run);
    AtomicInstrumentation(cfg, m, run);
    var log := Final(cfg, Initial(cfg, m), run).log;
    ReplayEquivalence(m, log, replay);
    hide AtomicInv, ConflictsInOrder, Reproduces, RunFrom, Touching, Stamped, ByStamp;
    forall x: int ensures Touching(replay, x) == Touching(log, x) {
      ByteOrderKept(log, replay, x);
    }
  }
}
