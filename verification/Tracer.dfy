/**
  The tracer as a whole: any number of threads, each going through the phases of its instructions,
  interleaved in any order. A step is what one analysis routine does under one thread lock, one
  address lock taken or released, one instruction executed, or a broadcast.
*/
module Tracer {
  import opened Options
  import opened TraceLine
  import opened Access
  import opened LockArithmetic
  import opened Replay
  import opened TracerStore
  import opened TracerCore

  /** Where a thread is in its current instruction. */
  datatype Stage =
    | Between                                              // may still hold the locks of the last one
    | Locking(access: Access, todo: seq<nat>, seen: int)   // `seen`: highest stamp of the locks taken
    | Ready(access: Access, time: int)                     // line emitted, not executed
    | Executed(access: Access, seen: int, at: nat)         // log entry `at`, line not emitted

  datatype Control = Control(stage: Stage, held: seq<nat>)

  datatype State = State(
    core: Core,
    control: map<Tid, Control>,
    stamps: seq<int>,
    owners: seq<Option<Tid>>,
    inRoi: bool,
    initial: Memory,
    memory: Memory,
    log: seq<Entry>)

  datatype Label =
    | Header(p: Tid, access: Access)   // header, operands
    | Lock(p: Tid)                     // the next address lock
    | Footer(p: Tid)                   // stamp and emit
    | Run(p: Tid)                      // the instruction itself
    | Unlock(p: Tid)                   // one address lock of the last instruction
    | Other(core: CoreLabel)           // everything that concerns no instruction

  ghost predicate Sane(cfg: Config) {
    cfg.lag > 0 && IsPower2(cfg.numLocks) && IsPower2(cfg.blockSize)
  }

  ghost function Initial(cfg: Config, m: Memory): State
    requires Sane(cfg)
  {
    State(EMPTY_CORE, map[], seq(cfg.numLocks, _ => 0), seq(cfg.numLocks, _ => None), false, m, m, [])
  }

  function Locks(cfg: Config, a: Access): seq<nat>
    requires cfg.blockSize >= 1 && cfg.numLocks >= 1
  {
    if Legal(a) then LockList(a, cfg.blockSize, cfg.numLocks) else []
  }

  /** The line of a memory access; a compare-and-swap that failed is only a read. */
  function MemoryEvent(a: Access, wrote: bool): Event {
    Memory(a.read1, a.read2, if wrote then a.write else None)
  }

  function Clock(s: State, p: Tid): int
    requires p in s.core.store.threads
  {
    s.core.store.threads[p].clock
  }

  function Max(a: int, b: int): int {
    if a > b then a else b
  }

  predicate Idle(s: State, p: Tid) {
    p in s.control && s.control[p] == Control(Between, [])
  }

  /** What the footer of `p` does: the time, the event. */
  ghost function FooterLabel(s: State, p: Tid): CoreLabel
    requires p in s.control && p in s.core.store.threads
    requires s.control[p].stage.Locking? || (s.control[p].stage.Executed? && s.control[p].stage.at < |s.log|)
  {
    var st := s.control[p].stage;
    var wrote := if st.Locking? then true else st.access.op(s.log[st.at].got).Some?;
    Local(p, Max(st.seen, Clock(s, p)) + 1, MemoryEvent(st.access, wrote))
  }

  ghost predicate Enabled(cfg: Config, s: State, l: Label) {
    && cfg.numLocks >= 1 && cfg.blockSize >= 1
    && match l
       case Header(p, a) =>
         Idle(s, p) && Free(s.core, p) && s.core.store.threads[p].uid >= 0
         && (s.inRoi || !cfg.requireRoi) && Legal(a) && (a.stampedAfter ==> !cfg.logCasFails)
       case Lock(p) =>
         p in s.control && s.control[p].stage.Locking? && s.control[p].stage.todo != []
         && s.control[p].stage.todo[0] < |s.owners| == |s.stamps| && s.owners[s.control[p].stage.todo[0]] == None
       case Footer(p) =>
         p in s.control && Free(s.core, p)
         && (var st := s.control[p].stage;
             || (st.Locking? && st.todo == [] && !st.access.stampedAfter)
             || (st.Executed? && st.at < |s.log|))
         && CoreEnabled(cfg, s.core, FooterLabel(s, p))
       case Run(p) =>
         p in s.control && Free(s.core, p)
         && (var st := s.control[p].stage;
             st.Ready? || (st.Locking? && st.todo == [] && st.access.stampedAfter))
       case Unlock(p) =>
         p in s.control && Free(s.core, p) && s.control[p].stage.Between? && s.control[p].held != []
         && s.control[p].held[0] < |s.owners| == |s.stamps|
       case Other(c) =>
         CoreEnabled(cfg, s.core, c)
         && match c
            case Local(p, time, e) =>
              Idle(s, p) && time == Clock(s, p) + 1 && (e.Call? || e.Return? || e.ContextChange?)
            case Announce(p, _) => Idle(s, p)
            case Join(p, _) => Idle(s, p)
            case End(p) => Idle(s, p)
            case Begin(p, _) => p !in s.control
            case _ => true
  }

  ghost function Next(cfg: Config, s: State, l: Label): State
    requires Enabled(cfg, s, l)
  {
    match l
    case Header(p, a) =>
      s.(control := s.control[p := Control(Locking(a, Locks(cfg, a), 0), [])])
    case Lock(p) =>
      var Control(st, held) := s.control[p];
      var i := st.todo[0];
      s.(control := s.control[p := Control(Locking(st.access, st.todo[1..], Max(st.seen, s.stamps[i])), held + [i])],
         owners := s.owners[i := Some(p)])
    case Footer(p) =>
      var Control(st, held) := s.control[p];
      var f := FooterLabel(s, p);
      var core := CoreNext(cfg, s.core, f);
      if st.Locking? then
        s.(core := core, control := s.control[p := Control(Ready(st.access, f.time), held)])
      else
        s.(core := core, control := s.control[p := Control(Between, held)],
           log := s.log[st.at := s.log[st.at].(stamp := Some(f.time))])
    case Run(p) =>
      var Control(st, held) := s.control[p];
      var stamp := if st.Ready? then Some(st.time) else None;
      s.(control := s.control[p := Control(if st.Ready? then Between else Executed(st.access, st.seen, |s.log|), held)],
         memory := Execute(st.access, s.memory),
         log := s.log + [Entry(p, st.access, ReadBytes(st.access, s.memory), stamp)])
    case Unlock(p) =>
      var Control(st, held) := s.control[p];
      s.(control := s.control[p := Control(Between, held[1..])],
         stamps := s.stamps[held[0] := Clock(s, p)],
         owners := s.owners[held[0] := None])
    case Other(c) =>
      var t := s.(core := CoreNext(cfg, s.core, c));
      match c
      case Begin(p, _) => t.(control := s.control[p := Control(Between, [])])
      case Announce(_, e) => if e.StartRoi? then t.(inRoi := true) else if e.EndRoi? then t.(inRoi := false) else t
      case _ => t
  }

  /** A step outside instructions moves the core, and adds the control of a thread that starts. */
  lemma OtherShape(cfg: Config, s: State, c: CoreLabel)
    requires Enabled(cfg, s, Other(c))
    ensures CoreEnabled(cfg, s.core, c)
    ensures var t := Next(cfg, s, Other(c));
            && t == s.(core := CoreNext(cfg, s.core, c), control := t.control, inRoi := t.inRoi)
            && t.control == if c.Begin? then s.control[c.p := Control(Between, [])] else s.control
    ensures c.Begin? ==> c.p !in s.control
    ensures c.Join? || c.End? ==> Idle(s, c.p)
  {
    hide CoreNext, CoreEnabled;
  }

  // ----- runs -----

  /** The labels of a run, each enabled where it is taken. */
  ghost predicate ValidRun(cfg: Config, s: State, run: seq<Label>)
    decreases |run|
  {
    run == [] || (Enabled(cfg, s, run[0]) && ValidRun(cfg, Next(cfg, s, run[0]), run[1..]))
  }

  ghost function Final(cfg: Config, s: State, run: seq<Label>): State
    requires ValidRun(cfg, s, run)
    decreases |run|
  {
    if run == [] then s else Final(cfg, Next(cfg, s, run[0]), run[1..])
  }
}
