/**
  The tracer's clocks, buffers and file as a transition system over interleaved threads.

  A thread whose `touch_buffer` found laggards is `pending`: it still has to take the
  thread-start/finish lock (`owner`) and then flush the listed threads one by one, while other
  threads keep running. Everything done under one thread lock, and every broadcast, is one step.
*/
module TracerCore {
  import opened Options
  import opened TraceLine
  import opened TraceOrder
  import opened TracerStore
  import opened TracerFile
  import opened TracerBroadcast

  /** The flush a thread still has to do, and the time it was decided at. */
  datatype Pending = Pending(time: int, others: seq<Tid>)

  datatype Core = Core(store: Store, pending: map<Tid, Pending>, owner: Option<Tid>)

  const EMPTY_CORE := Core(EMPTY_STORE, map[], None)

  datatype CoreLabel =
    | Local(p: Tid, time: int, event: Event)   // memory access, call, return or context change of a registered thread
    | FlushEnter(p: Tid)                       // take the start/finish lock
    | FlushOne(p: Tid)                         // flush the next listed thread
    | FlushLeave(p: Tid)                       // release the start/finish lock
    | Announce(p: Tid, event: Event)           // call or return of an unregistered thread, start or end of the ROI
    | Join(p: Tid, uid: int)                   // register_thread
    | Begin(p: Tid, uid: int)                  // thread start
    | End(p: Tid)                              // thread finish

  predicate Free(c: Core, p: Tid) {
    p in c.store.live && p in c.store.threads && p !in c.pending
  }

  ghost predicate CoreEnabled(cfg: Config, c: Core, l: CoreLabel) {
    && c.store.live <= c.store.threads.Keys
    && match l
       case Local(p, time, e) =>
         Free(c, p) && c.store.threads[p].uid >= 0 && time > c.store.threads[p].clock && TagOf(e) == TagOther
       case FlushEnter(p) => p in c.pending && c.owner == None
       case FlushOne(p) => c.owner == Some(p) && p in c.pending && c.pending[p].others != []
       case FlushLeave(p) => c.owner == Some(p) && p in c.pending && c.pending[p].others == []
       case Announce(p, e) =>
         Free(c, p) && c.owner == None
         && (((e.Call? || e.Return?) && c.store.threads[p].uid == -1) || e.StartRoi? || e.EndRoi?)
       case Join(p, uid) =>
         cfg.registerThreads && Free(c, p) && c.owner == None
         && c.store.threads[p].uid == -1 && uid >= 0 && Fresh(c.store, uid)
       case Begin(p, uid) =>
         p !in c.store.threads && c.owner == None
         && if cfg.registerThreads then uid == -1 else uid >= 0 && Fresh(c.store, uid)
       case End(p) => Free(c, p) && c.owner == None
  }

  /** The time of a broadcast: one above every live clock. */
  ghost function NextTime(s: Store): int
    requires s.live <= s.threads.Keys
  {
    MaxClock(s.threads, s.live) + 1
  }

  /** A touch of `p`'s buffer at `time` leaves a flush to do if it found laggards. */
  function AfterTouch(c: Core, t: Touched, p: Tid, time: int): Core {
    Core(t.store, if t.others == [] then c.pending else c.pending[p := Pending(time, t.others)], c.owner)
  }

  ghost function CoreNext(cfg: Config, c: Core, l: CoreLabel): Core
    requires CoreEnabled(cfg, c, l)
  {
    var s := c.store;
    match l
    case Local(p, time, e) =>
      var t := Touch(cfg, Emit(s, p, Line(time, s.threads[p].uid, e)), p, time, false);
      AfterTouch(c, t, p, time)
    case FlushEnter(p) => c.(owner := Some(p))
    case FlushOne(p) =>
      var todo := c.pending[p];
      Core(FlushOther(cfg, s, todo.others[0], todo.time), c.pending[p := todo.(others := todo.others[1..])], c.owner)
    case FlushLeave(p) => Core(s, c.pending - {p}, None)
    case Announce(p, e) => c.(store := Broadcast(cfg, s, p, NextTime(s), e))
    case Join(p, uid) => c.(store := RegisterThread(cfg, s, p, uid, NextTime(s)))
    case Begin(p, uid) => c.(store := StartThread(cfg, s, p, uid, NextTime(s)))
    case End(p) => c.(store := FinishThread(cfg, s, p, NextTime(s)))
  }

  // ----- the invariant -----

  ghost predicate PendingOk(c: Core) {
    && (forall p :: p in c.pending ==>
          p in c.store.live && p in c.store.threads && c.pending[p].time <= c.store.threads[p].clock)
    && (c.owner.Some? ==> c.owner.value in c.pending)
  }

  ghost predicate CoreInv(c: Core) {
    FileInv(c.store, c.store.live) && PendingOk(c)
  }

  /** Some live clock has reached every time in the file. */
  ghost predicate Anchored(s: Store) {
    s.live <= s.threads.Keys && Top(Heads(s.file)) <= MaxClock(s.threads, s.live)
  }

  /** The time of the next broadcast is not below the file. */
  ghost predicate Near(s: Store) {
    s.live <= s.threads.Keys && Top(Heads(s.file)) <= NextTime(s)
  }

  /** An unregistered thread's line goes above those of all unregistered threads. */
  ghost predicate SilentFits(s: Store, p: Tid) {
    p in s.threads && s.threads[p].uid == -1 && s.live <= s.threads.Keys ==> LastSilent(Heads(s.file)) < NextTime(s)
  }

  /** The line of the next broadcast may follow what is in the file. */
  ghost predicate Fits(c: Core, l: CoreLabel) {
    Near(c.store) && (l.Announce? ==> SilentFits(c.store, l.p))
  }

  lemma AnchoredFits(c: Core, l: CoreLabel)
    requires Anchored(c.store)
    ensures Fits(c, l)
  {
  }

  /** The steps that trace an event under all thread locks. */
  predicate IsBroadcast(cfg: Config, c: Core, l: CoreLabel) {
    match l
    case Announce(_, _) => true
    case Join(_, _) => true
    case Begin(_, _) => !cfg.registerThreads
    case End(p) => p in c.store.threads && c.store.threads[p].uid >= 0
    case _ => false
  }

  lemma EmptyCoreInv()
    ensures CoreInv(EMPTY_CORE) && Anchored(EMPTY_STORE)
  {
    assert Heads([]) == [];
  }

  lemma EvolvesFurther(s: Store, w: Store, t: Store, p: Tid, n: int)
    requires p in s.threads && s.threads[p].clock <= n && Evolves(w, t) && w.live == s.live
    requires w.threads == s.threads[p := ThreadData(s.threads[p].uid, n, [])]
    ensures Evolves(s, t)
  {
  }

  /** What is left of a broadcast once the own line is written. */
  lemma BroadcastKeeps(cfg: Config, s: Store, here: set<Tid>, p: Tid, l: Line)
    requires cfg.lag > 0 && p in s.threads && s.live <= s.threads.Keys
    requires l.uid == s.threads[p].uid
    requires FileInv(OwnLine(cfg, s, p, l), here) && s.live <= here + {p}
    requires forall q :: q in s.live ==> s.threads[q].clock <= l.time
    requires s.threads[p].clock <= l.time
    ensures var t := Broadcast(cfg, s, p, l.time, l.event);
            && FileInv(t, here) && Evolves(s, t) && TopGrowsTo(OwnLine(cfg, s, p, l), t, l.time)
            && (forall q :: q in s.threads && q in s.live + {p} ==> t.threads[q].clock == l.time)
  {
    var w := OwnLine(cfg, s, p, l);
    OwnLineFields(cfg, s, p, l);
    LiveIsKnown(w, here);
    assert l == Line(l.time, s.threads[p].uid, l.event);
    var others := Touch(cfg, Emit(s, p, l), p, l.time, true).others;
    assert Broadcast(cfg, s, p, l.time, l.event) == SetClocks(FlushOthers(cfg, w, others, l.time), w.live, l.time);
    hide OwnLine, FileInv, TopGrowsTo, Touch, Broadcast, SetClocks, FlushOthers, Evolves;
    FinishBroadcast(cfg, w, here, p, others, l.time);
    EvolvesFurther(s, w, Broadcast(cfg, s, p, l.time, l.event), p, l.time);
  }

  /** A broadcast of an anchored store puts its time at the top of the file and on every live clock. */
  ghost predicate Synchronised(s: Store, t: Store, n: int) {
    && Top(Heads(t.file)) <= n
    && (forall q :: q in t.live && q in t.threads ==> t.threads[q].clock == n)
  }

  lemma AnnounceKeeps(cfg: Config, s: Store, p: Tid, e: Event)
    requires cfg.lag > 0 && FileInv(s, s.live) && p in s.live && Near(s) && SilentFits(s, p)
    requires TagOf(e) == TagOther
    ensures var t := Broadcast(cfg, s, p, NextTime(s), e);
            FileInv(t, t.live) && Evolves(s, t) && Synchronised(s, t, NextTime(s))
  {
    var l := Line(NextTime(s), s.threads[p].uid, e);
    if s.threads[p].uid >= 0 {
      TouchKeeps(cfg, s, s.live, p, l, true);
    } else {
      UnregisteredLine(cfg, s, s.live, p, l);
    }
    BroadcastKeeps(cfg, s, s.live, p, l);
  }

  /** The store in which `p` has taken its id but not yet traced it. */
  function Named(s: Store, p: Tid, t: ThreadData): Store {
    s.(threads := s.threads[p := t])
  }

  /** The `tr` line of a thread that takes the fresh id `uid`. */
  lemma RegisterOwnLine(cfg: Config, s: Store, b: Store, p: Tid, uid: int, n: int)
    requires FileInv(s, s.live) && Top(Heads(s.file)) <= n && n > 0 && uid >= 0 && Fresh(s, uid)
    requires p in s.threads ==> s.threads[p].uid == -1 && p in s.live
    requires p in b.threads && b == Named(s, p, b.threads[p])
    requires b.threads[p].uid == uid && b.threads[p].buffer == []
    ensures var w := OwnLine(cfg, b, p, Line(n, uid, Register));
            FileInv(w, s.live + {p}) && Top(Heads(w.file)) == n
  {
    RegisterLine(cfg, s, b, s.live, p, Line(n, uid, Register));
  }

  lemma RegisterBroadcast(cfg: Config, s: Store, b: Store, p: Tid, uid: int, n: int)
    requires cfg.lag > 0 && FileInv(s, s.live) && Top(Heads(s.file)) <= n && n > 0 && uid >= 0 && Fresh(s, uid)
    requires p in s.threads ==> s.threads[p].uid == -1 && p in s.live
    requires p in b.threads && b == Named(s, p, b.threads[p])
    requires b.threads[p].uid == uid && b.threads[p].buffer == [] && b.threads[p].clock <= n
    requires forall q :: q in s.live ==> b.threads[q].clock <= n
    ensures var t := Broadcast(cfg, b, p, n, Register);
            && FileInv(t, s.live + {p}) && Evolves(b, t) && Top(Heads(t.file)) <= n
            && (forall q :: q in t.threads && q in s.live + {p} ==> t.threads[q].clock == n)
  {
    RegisterOwnLine(cfg, s, b, p, uid, n);
    BroadcastKeeps(cfg, b, s.live + {p}, p, Line(n, uid, Register));
  }

  lemma NamedEvolves(s: Store, b: Store, t: Store, p: Tid)
    requires p in s.threads && p in b.threads && b == Named(s, p, b.threads[p]) && Evolves(b, t)
    requires b.threads[p].clock == s.threads[p].clock
    ensures t.live == s.live && t.threads.Keys == s.threads.Keys
    ensures forall q :: q in s.threads ==> s.threads[q].clock <= t.threads[q].clock
  {
    assert s.threads.Keys + {p} == s.threads.Keys;
  }

  lemma JoinKeeps(cfg: Config, s: Store, p: Tid, uid: int)
    requires cfg.lag > 0 && FileInv(s, s.live) && p in s.live && Near(s)
    requires s.threads[p].uid == -1 && uid >= 0 && Fresh(s, uid)
    ensures var t := RegisterThread(cfg, s, p, uid, NextTime(s));
            && FileInv(t, t.live) && Synchronised(s, t, NextTime(s))
            && t.live == s.live && t.threads.Keys == s.threads.Keys
            && (forall q :: q in s.threads ==> s.threads[q].clock <= t.threads[q].clock)
  {
    var b := Named(s, p, s.threads[p].(uid := uid));
    assert BufferOk(s, s.live, p);
    LiveIsKnown(s, s.live);
    assert s.live + {p} == s.live;
    hide FileInv, Fresh, Broadcast, Top, Heads;
    RegisterBroadcast(cfg, s, b, p, uid, NextTime(s));
    NamedEvolves(s, b, Broadcast(cfg, b, p, NextTime(s), Register), p);
  }

  lemma BeginKeeps(cfg: Config, s: Store, p: Tid, uid: int)
    requires cfg.lag > 0 && FileInv(s, s.live) && p !in s.threads
    requires if cfg.registerThreads then uid == -1 else uid >= 0 && Fresh(s, uid) && Near(s)
    ensures var t := StartThread(cfg, s, p, uid, NextTime(s));
            && FileInv(t, t.live) && t.live == s.live + {p}
            && (!cfg.registerThreads ==> Synchronised(s, t, NextTime(s)))
            && t.threads.Keys == s.threads.Keys + {p}
            && (forall q :: q in s.threads ==> s.threads[q].clock <= t.threads[q].clock)
  {
    hide FileInv, Fresh, Broadcast, Top, Heads;
    LiveIsKnown(s, s.live);
    if cfg.registerThreads {
      SilentStart(s, StartThread(cfg, s, p, uid, NextTime(s)), p);
    } else {
      TracedStart(cfg, s, p, uid);
    }
  }

  lemma TracedStart(cfg: Config, s: Store, p: Tid, uid: int)
    requires cfg.lag > 0 && FileInv(s, s.live) && p !in s.threads
    requires !cfg.registerThreads && uid >= 0 && Fresh(s, uid) && Near(s)
    ensures var t := StartThread(cfg, s, p, uid, NextTime(s));
            && FileInv(t, t.live) && t.live == s.live + {p} && Synchronised(s, t, NextTime(s))
            && t.threads.Keys == s.threads.Keys + {p}
            && (forall q :: q in s.threads ==> s.threads[q].clock <= t.threads[q].clock)
  {
    hide FileInv, Fresh, Broadcast, Top, Heads;
    LiveIsKnown(s, s.live);
    var b, n := Named(s, p, ThreadData(uid, 0, [])), NextTime(s);
    RegisterBroadcast(cfg, s, b, p, uid, n);
    SameContents(Broadcast(cfg, b, p, n, Register), StartThread(cfg, s, p, uid, n), s.live + {p});
  }

  lemma SilentStart(s: Store, t: Store, p: Tid)
    requires FileInv(s, s.live) && p !in s.threads
    requires t.threads == s.threads[p := ThreadData(-1, 0, [])] && t.live == s.live + {p} && t.file == s.file
    ensures FileInv(t, t.live)
  {
    forall q | q in t.threads ensures BufferOk(t, t.live, q) {
      if q != p {
        assert BufferOk(s, s.live, q);
      }
    }
    forall u | u in Active(Heads(t.file)) ensures Owned(t, t.live, u) {
      var q :| q in s.threads && q in s.live && s.threads[q].uid == u;
      assert q in t.threads && t.threads[q].uid == u;
    }
    forall u | u in Registered(Heads(t.file)) ensures Known(t, u) {
      var q :| q in s.threads && s.threads[q].uid == u;
      assert q in t.threads && t.threads[q].uid == u;
    }
  }

  lemma SameContents(s: Store, t: Store, here: set<Tid>)
    requires FileInv(s, here) && t.threads == s.threads && t.file == s.file && t.live <= t.threads.Keys
    ensures FileInv(t, here)
  {
    SameOwners(s, t, here);
    forall q | q in t.threads ensures BufferOk(t, here, q) {
      assert BufferOk(s, here, q);
    }
  }

  lemma EndKeeps(cfg: Config, s: Store, p: Tid)
    requires cfg.lag > 0 && FileInv(s, s.live) && p in s.live
    requires s.threads[p].uid >= 0 ==> Near(s)
    ensures var t := FinishThread(cfg, s, p, NextTime(s));
            && FileInv(t, t.live) && t.live == s.live - {p}
            && (s.threads[p].uid >= 0 ==> Synchronised(s, t, NextTime(s)) && NextTime(s) <= Top(Heads(t.file)))
            && (s.threads[p].uid == -1 ==> t == s.(live := s.live - {p}))
            && t.threads.Keys == s.threads.Keys
            && (forall q :: q in s.threads ==> s.threads[q].clock <= t.threads[q].clock)
  {
    var t := FinishThread(cfg, s, p, NextTime(s));
    assert BufferOk(s, s.live, p);
    if s.threads[p].uid >= 0 {
      var l := Line(NextTime(s), s.threads[p].uid, Finish);
      FinishLine(cfg, s, s.live, p, l);
      BroadcastKeeps(cfg, s, s.live - {p}, p, l);
      var b := Broadcast(cfg, s, p, NextTime(s), Finish);
      assert BufferOk(b, s.live - {p}, p);
      SameContents(b, t, s.live - {p});
    } else {
      SilentEnd(s, t, p);
    }
  }

  lemma SilentEnd(s: Store, t: Store, p: Tid)
    requires FileInv(s, s.live) && p in s.threads && s.threads[p].uid == -1 && t == s.(live := s.live - {p})
    ensures FileInv(t, t.live)
  {
    forall q | q in t.threads ensures BufferOk(t, t.live, q) {
      assert BufferOk(s, s.live, q);
    }
    forall u | u in Active(Heads(t.file)) ensures Owned(t, t.live, u) {
      ActiveBounds(Heads(t.file), u);
      var q :| q in s.threads && q in s.live && s.threads[q].uid == u;
      assert q in t.threads && q in t.live && t.threads[q].uid == u;
    }
    forall u | u in Registered(Heads(t.file)) ensures Known(t, u) {
      var q :| q in s.threads && s.threads[q].uid == u;
      assert q in t.threads && t.threads[q].uid == u;
    }
  }

  /** A touch by `p` that may start a flush. */
  lemma LocalShape(c: Core, t: Touched, p: Tid, time: int)
    requires PendingOk(c) && p in c.store.live && c.store.live <= c.store.threads.Keys
    requires FileInv(t.store, c.store.live) && TopGrowsTo(c.store, t.store, time)
    requires t.store.live == c.store.live && t.store.threads.Keys == c.store.threads.Keys
    requires c.store.threads[p].clock <= time
    requires forall q :: q in c.store.threads ==>
               t.store.threads[q].clock == if q == p then time else c.store.threads[q].clock
    ensures CoreInv(AfterTouch(c, t, p, time))
    ensures Anchored(c.store) ==> Anchored(t.store)
  {
    hide FileInv;
    MaxClockGrows(c.store, t.store);
    GrowthAnchored(c.store, t.store, p, time);
  }

  lemma LocalKeeps(cfg: Config, c: Core, p: Tid, time: int, e: Event)
    requires CoreInv(c) && CoreEnabled(cfg, c, Local(p, time, e))
    ensures CoreInv(CoreNext(cfg, c, Local(p, time, e)))
    ensures Anchored(c.store) ==> Anchored(CoreNext(cfg, c, Local(p, time, e)).store)
  {
    var s := c.store;
    var l := Line(time, s.threads[p].uid, e);
    TouchKeeps(cfg, s, s.live, p, l, false);
    TouchClocks(cfg, s, p, l, false);
    LiveIsKnown(s, s.live);
    hide Touch, FileInv, TopGrowsTo, PendingOk;
    LocalShape(c, Touch(cfg, Emit(s, p, l), p, time, false), p, time);
  }

  /** A line of a live thread leaves the store anchored if its thread's clock has reached it. */
  lemma GrowthAnchored(s: Store, t: Store, p: Tid, time: int)
    requires s.live <= s.threads.Keys && t.live <= t.threads.Keys && TopGrowsTo(s, t, time)
    requires MaxClock(s.threads, s.live) <= MaxClock(t.threads, t.live)
    requires p in t.live && time <= t.threads[p].clock
    ensures Anchored(s) ==> Anchored(t)
  {
    hide Top, Heads;
  }

  /** The highest live clock never falls while no thread leaves. */
  lemma MaxClockGrows(s: Store, t: Store)
    requires s.live <= s.threads.Keys && t.live <= t.threads.Keys && s.live <= t.live
    requires forall q :: q in s.live && q in t.threads ==> s.threads[q].clock <= t.threads[q].clock
    ensures MaxClock(s.threads, s.live) <= MaxClock(t.threads, t.live)
  {
  }

  lemma FlushOtherAnchored(cfg: Config, s: Store, p: Tid, u: Tid, time: int)
    requires cfg.lag > 0 && FileInv(s, s.live) && p in s.live && time <= s.threads[p].clock
    ensures var t := FlushOther(cfg, s, u, time);
            FileInv(t, s.live) && Evolves(s, t) && (Anchored(s) ==> Anchored(t))
  {
    FlushOtherKeeps(cfg, s, s.live, u, time);
    FlushOtherClocks(cfg, s, u, time);
    MaxClockGrows(s, FlushOther(cfg, s, u, time));
  }

  lemma FlushOneKeeps(cfg: Config, c: Core, p: Tid)
    requires cfg.lag > 0 && CoreInv(c) && CoreEnabled(cfg, c, FlushOne(p))
    ensures CoreInv(CoreNext(cfg, c, FlushOne(p)))
    ensures Anchored(c.store) ==> Anchored(CoreNext(cfg, c, FlushOne(p)).store)
  {
    FlushOtherAnchored(cfg, c.store, p, c.pending[p].others[0], c.pending[p].time);
  }

  /** Every step keeps the file legal, provided the line of a broadcast fits. */
  lemma StepKeepsFile(cfg: Config, c: Core, l: CoreLabel)
    requires cfg.lag > 0 && CoreInv(c) && CoreEnabled(cfg, c, l)
    requires IsBroadcast(cfg, c, l) ==> Fits(c, l)
    ensures CoreInv(CoreNext(cfg, c, l))
  {
    hide FileInv, Touch, FlushOther, Broadcast, RegisterThread, StartThread, FinishThread, Synchronised;
    match l
    case Local(p, time, e) => LocalKeeps(cfg, c, p, time, e);
    case FlushEnter(p) =>
    case FlushOne(p) => FlushOneKeeps(cfg, c, p);
    case FlushLeave(p) =>
    case Announce(p, e) => AnnounceKeeps(cfg, c.store, p, e);
    case Join(p, uid) => JoinKeeps(cfg, c.store, p, uid);
    case Begin(p, uid) => BeginKeeps(cfg, c.store, p, uid);
    case End(p) => EndKeeps(cfg, c.store, p);
  }

  /** Only a thread's end can leave the clocks behind the file. */
  lemma StepKeepsAnchor(cfg: Config, c: Core, l: CoreLabel)
    requires cfg.lag > 0 && CoreInv(c) && CoreEnabled(cfg, c, l) && !l.End? && Anchored(c.store)
    ensures Anchored(CoreNext(cfg, c, l).store)
  {
    hide FileInv, Touch, FlushOther, Broadcast, RegisterThread, FinishThread;
    match l
    case Local(p, time, e) => LocalKeeps(cfg, c, p, time, e);
    case FlushEnter(p) =>
    case FlushOne(p) => FlushOneKeeps(cfg, c, p);
    case FlushLeave(p) =>
    case Announce(p, e) => AnnounceKeeps(cfg, c.store, p, e);
    case Join(p, uid) => JoinKeeps(cfg, c.store, p, uid);
    case Begin(p, uid) =>
      BeginKeeps(cfg, c.store, p, uid);
      MaxClockGrows(c.store, CoreNext(cfg, c, l).store);
  }

  /**
    When the clocks survive a thread's end: a registered thread only has to leave a live thread
    behind, an unregistered one a live thread whose clock has reached the top of the file.
  */
  lemma EndKeepsAnchor(cfg: Config, c: Core, p: Tid)
    requires cfg.lag > 0 && CoreInv(c) && CoreEnabled(cfg, c, End(p)) && Anchored(c.store)
    ensures var s := c.store;
            Anchored(CoreNext(cfg, c, End(p)).store) <==>
            if s.threads[p].uid >= 0 then s.live != {p}
            else Top(Heads(s.file)) == 0 || AnotherAtTop(s, p)
  {
    hide FinishThread, NextTime, Anchored, AnotherAtTop;
    EndAnchored(cfg, c.store, p);
  }

  lemma EndAnchored(cfg: Config, s: Store, p: Tid)
    requires cfg.lag > 0 && FileInv(s, s.live) && p in s.live && Anchored(s)
    ensures Anchored(FinishThread(cfg, s, p, NextTime(s))) <==>
            if s.threads[p].uid >= 0 then s.live != {p}
            else Top(Heads(s.file)) == 0 || AnotherAtTop(s, p)
  {
    var t := FinishThread(cfg, s, p, NextTime(s));
    assert s.threads[p].uid >= -1;
    EndKeeps(cfg, s, p);
    LiveIsKnown(s, s.live);
    LiveIsKnown(t, t.live);
    hide FileInv, FinishThread, Synchronised, Anchored, AnotherAtTop;
    if s.threads[p].uid >= 0 {
      RegisteredEnd(s, t, p, NextTime(s));
    } else {
      UnregisteredEnd(s, t, p);
    }
  }

  /** A live thread other than `p` whose clock has reached the top of the file. */
  ghost predicate AnotherAtTop(s: Store, p: Tid)
    requires s.live <= s.threads.Keys
  {
    exists q :: q in s.live && q != p && s.threads[q].clock >= Top(Heads(s.file))
  }

  lemma UnregisteredEnd(s: Store, t: Store, p: Tid)
    requires s.live <= s.threads.Keys && t == s.(live := s.live - {p})
    ensures Anchored(t) <==> Top(Heads(s.file)) == 0 || AnotherAtTop(s, p)
  {
    hide Heads;
  }

  lemma RegisteredEnd(s: Store, t: Store, p: Tid, n: int)
    requires s.live <= s.threads.Keys && t.live == s.live - {p} && t.live <= t.threads.Keys && p in s.live
    requires Synchronised(s, t, n) && 0 < n <= Top(Heads(t.file))
    ensures Anchored(t) <==> s.live != {p}
  {
    if s.live != {p} {
      var q :| q in s.live && q != p;
      assert q in t.live;
    }
  }
}
