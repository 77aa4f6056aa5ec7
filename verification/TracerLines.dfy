/** Which lines every step emits: at most one of its own, then `thread_sync` lines of threads it flushes. */
module TracerLines {
  import opened TraceLine
  import opened TracerStore
  import opened TracerBroadcast
  import opened TracerCore

  /** `g` is `f` and then `thread_sync` lines of one time. */
  ghost predicate AddsSyncs(f: seq<Line>, g: seq<Line>, time: int) {
    f <= g && forall i :: |f| <= i < |g| ==> g[i].event == Sync && g[i].time == time
  }

  lemma AddsSyncsTwice(f: seq<Line>, g: seq<Line>, h: seq<Line>, time: int)
    requires AddsSyncs(f, g, time) && AddsSyncs(g, h, time)
    ensures AddsSyncs(f, h, time)
  {
    assert forall i :: 0 <= i < |g| ==> h[i] == g[i];
  }

  lemma FlushOtherSyncs(cfg: Config, s: Store, u: Tid, time: int)
    requires s.live <= s.threads.Keys
    ensures AddsSyncs(s.emitted, FlushOther(cfg, s, u, time).emitted, time)
  {
  }

  lemma {:induction false} FlushOthersSyncs(cfg: Config, s: Store, us: seq<Tid>, time: int)
    requires s.live <= s.threads.Keys
    ensures AddsSyncs(s.emitted, FlushOthers(cfg, s, us, time).emitted, time)
    decreases |us|
  {
    hide FlushOther, AddsSyncs;
    if us != [] {
      var t := FlushOthers(cfg, s, us[..|us| - 1], time);
      FlushOthersSyncs(cfg, s, us[..|us| - 1], time);
      FlushOtherSyncs(cfg, t, us[|us| - 1], time);
      AddsSyncsTwice(s.emitted, t.emitted, FlushOther(cfg, t, us[|us| - 1], time).emitted, time);
    } else {
      NoSyncs(s.emitted, time);
    }
  }

  lemma NoSyncs(f: seq<Line>, time: int)
    ensures AddsSyncs(f, f, time)
  {
  }

  lemma BroadcastLines(cfg: Config, s: Store, p: Tid, n: int, e: Event)
    requires p in s.threads && s.live <= s.threads.Keys
    ensures AddsSyncs(s.emitted + [Line(n, s.threads[p].uid, e)], Broadcast(cfg, s, p, n, e).emitted, n)
  {
    var l := Line(n, s.threads[p].uid, e);
    OwnLineFields(cfg, s, p, l);
    var t := Touch(cfg, Emit(s, p, l), p, n, true);
    hide Touch, FlushOthers, AddsSyncs;
    FlushOthersSyncs(cfg, t.store, t.others, n);
  }

  /** The line of the event itself: memory accesses, calls and the like, and everything under all locks. */
  ghost function OwnEvent(cfg: Config, c: Core, l: CoreLabel): seq<Line>
    requires CoreEnabled(cfg, c, l)
  {
    var s := c.store;
    match l
    case Local(p, time, e) => [Line(time, s.threads[p].uid, e)]
    case Announce(p, e) => [Line(NextTime(s), s.threads[p].uid, e)]
    case Join(_, uid) => [Line(NextTime(s), uid, Register)]
    case Begin(_, uid) => if cfg.registerThreads then [] else [Line(NextTime(s), uid, Register)]
    case End(p) => if s.threads[p].uid >= 0 then [Line(NextTime(s), s.threads[p].uid, Finish)] else []
    case _ => []
  }

  /** The time of the `thread_sync` lines. */
  ghost function SyncTime(cfg: Config, c: Core, l: CoreLabel): int
    requires CoreEnabled(cfg, c, l)
  {
    if l.FlushOne? then c.pending[l.p].time else NextTime(c.store)
  }

  lemma StepLines(cfg: Config, c: Core, l: CoreLabel)
    requires CoreEnabled(cfg, c, l)
    ensures var d := CoreNext(cfg, c, l);
            AddsSyncs(c.store.emitted + OwnEvent(cfg, c, l), d.store.emitted, SyncTime(cfg, c, l))
    ensures !l.FlushOne? && !IsBroadcast(cfg, c, l) ==>
              CoreNext(cfg, c, l).store.emitted == c.store.emitted + OwnEvent(cfg, c, l)
  {
    hide Broadcast, FlushOther, Insert, Erase, Recheck;
    var s := c.store;
    assert s.emitted + [] == s.emitted;
    match l
    case FlushOne(p) => FlushOtherSyncs(cfg, s, c.pending[p].others[0], c.pending[p].time);
    case Announce(p, e) => BroadcastLines(cfg, s, p, NextTime(s), e);
    case Join(p, uid) => BroadcastLines(cfg, Named(s, p, s.threads[p].(uid := uid)), p, NextTime(s), Register);
    case Begin(p, uid) => BroadcastLines(cfg, Named(s, p, ThreadData(uid, 0, [])), p, NextTime(s), Register);
    case End(p) => BroadcastLines(cfg, s, p, NextTime(s), Finish);
    case _ =>
  }
}
