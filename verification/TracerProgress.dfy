/**
  The tracer never gets stuck: whatever instructions and flushes are under way, some thread can go on
  with them, and going on ends.
*/
module TracerProgress {
  import opened Options
  import opened Access
  import opened LockArithmetic
  import opened Sums
  import opened TracerStore
  import opened TracerCore
  import opened TracerLag
  import opened TracerFlush
  import opened Tracer
  import opened TracerAtomic
  import opened TracerRuns
  import opened TracerTrace

  /** Steps that bring an instruction or a flush to its end: no new instruction, call, start or finish. */
  predicate IsWork(l: Label) {
    match l
    case Header(_, _) => false
    case Other(c) => c.FlushEnter? || c.FlushOne? || c.FlushLeave?
    case _ => true
  }

  /** In the middle of an instruction, or holding address locks. */
  predicate Busy(s: State, p: Tid) {
    p in s.control && !Idle(s, p)
  }

  ghost predicate HasWork(s: State) {
    s.core.pending != map[] || exists p :: Busy(s, p)
  }

  // ----- the invariant -----

  /** Whoever owns a lock has it on its list. */
  ghost predicate OwnersHold(s: State) {
    forall i: nat :: i < |s.owners| && s.owners[i].Some? ==>
      s.owners[i].value in s.control && i in s.control[s.owners[i].value].held
  }

  /** Only a live registered thread is busy. */
  ghost predicate BusyIsLive(s: State) {
    forall p :: Busy(s, p) ==> p in s.core.store.live && p in s.core.store.threads && s.core.store.threads[p].uid >= 0
  }

  ghost predicate ProgressInv(cfg: Config, s: State) {
    AtomicInv(cfg, s) && FlushInv(cfg, s.core) && OwnersHold(s) && BusyIsLive(s)
  }

  lemma InitialProgress(cfg: Config, m: Memory)
    requires Sane(cfg)
    ensures ProgressInv(cfg, Initial(cfg, m))
  {
    InitialInv(cfg, m);
  }

  lemma LockHolds(s: State, t: State, p: Tid, i: nat)
    requires OwnersHold(s) && p in s.control && p in t.control && i < |s.owners|
    requires t.owners == s.owners[i := Some(p)] && t.control[p].held == s.control[p].held + [i]
    requires t.control == s.control[p := t.control[p]]
    ensures OwnersHold(t)
  {
  }

  lemma UnlockHolds(s: State, t: State, p: Tid)
    requires OwnersHold(s) && p in s.control && p in t.control && s.control[p].held != []
    requires s.control[p].held[0] < |s.owners| && t.owners == s.owners[s.control[p].held[0] := None]
    requires t.control[p].held == s.control[p].held[1..] && t.control == s.control[p := t.control[p]]
    ensures OwnersHold(t)
  {
    var held := s.control[p].held;
    assert held == [held[0]] + held[1..];
  }

  /** Steps that leave the locks alone; only an idle thread forgets its list. */
  lemma SameHolds(s: State, t: State)
    requires OwnersHold(s) && t.owners == s.owners
    requires forall q :: q in s.control ==> q in t.control && t.control[q].held == s.control[q].held
    ensures OwnersHold(t)
  {
  }

  lemma StepKeepsHolders(cfg: Config, s: State, l: Label)
    requires OwnersHold(s) && Enabled(cfg, s, l)
    ensures OwnersHold(Next(cfg, s, l))
  {
    hide OwnersHold, CoreNext, CoreEnabled, FooterLabel, Locks, Execute, ReadBytes;
    var t := Next(cfg, s, l);
    match l
    case Lock(p) => LockHolds(s, t, p, s.control[p].stage.todo[0]);
    case Unlock(p) => UnlockHolds(s, t, p);
    case _ => SameHolds(s, t);
  }

  lemma OtherBusyState(s: State, t: State, c: CoreLabel)
    requires BusyIsLive(s) && (c.Join? || c.End? ==> !Busy(s, c.p))
    requires t.control == if c.Begin? then s.control[c.p := Control(Between, [])] else s.control
    requires t.core.store.live == if c.Begin? then s.core.store.live + {c.p}
                                  else if c.End? then s.core.store.live - {c.p} else s.core.store.live
    requires s.core.store.threads.Keys <= t.core.store.threads.Keys
    requires forall q :: q in s.core.store.threads && !(c.Join? && c.p == q) ==>
               t.core.store.threads[q].uid == s.core.store.threads[q].uid
    ensures BusyIsLive(t)
  {
    forall p | Busy(t, p)
      ensures p in t.core.store.live && p in t.core.store.threads && t.core.store.threads[p].uid >= 0
    {
      assert Busy(s, p);
    }
  }

  lemma OtherKeepsBusy(cfg: Config, s: State, c: CoreLabel)
    requires cfg.lag > 0 && BusyIsLive(s) && Enabled(cfg, s, Other(c))
    ensures BusyIsLive(Next(cfg, s, Other(c)))
  {
    OtherShape(cfg, s, c);
    hide Enabled, Next, CoreNext, CoreEnabled, BusyIsLive;
    StepMovesThreads(cfg, s.core, c);
    StepKeepsUids(cfg, s.core, c);
    OtherBusyState(s, Next(cfg, s, Other(c)), c);
  }

  lemma FooterKeepsBusy(cfg: Config, s: State, p: Tid)
    requires cfg.lag > 0 && BusyIsLive(s) && Enabled(cfg, s, Footer(p))
    ensures BusyIsLive(Next(cfg, s, Footer(p)))
  {
    StepMovesThreads(cfg, s.core, FooterLabel(s, p));
    StepKeepsUids(cfg, s.core, FooterLabel(s, p));
    hide CoreNext, CoreEnabled;
    assert Busy(s, p);
    var t := Next(cfg, s, Footer(p));
    forall q | Busy(t, q)
      ensures q in t.core.store.live && q in t.core.store.threads && t.core.store.threads[q].uid >= 0
    {
      assert Busy(s, q);
    }
  }

  lemma StepKeepsBusy(cfg: Config, s: State, l: Label)
    requires cfg.lag > 0 && BusyIsLive(s) && Enabled(cfg, s, l)
    ensures BusyIsLive(Next(cfg, s, l))
  {
    match l
    case Footer(p) => FooterKeepsBusy(cfg, s, p);
    case Other(c) => OtherKeepsBusy(cfg, s, c);
    case _ =>
  }

  lemma StepKeepsProgress(cfg: Config, s: State, l: Label)
    requires ProgressInv(cfg, s) && Enabled(cfg, s, l)
    ensures ProgressInv(cfg, Next(cfg, s, l))
  {
    StepIsAtomic(cfg, s, l);
    StepMovesCore(cfg, s, l);
    KeysAgree(cfg, s);
    var c := CoreStep(cfg, s, l);
    hide AtomicInv, FlushInv, Next, CoreNext, CoreEnabled;
    if c.Some? {
      StepKeepsFlush(cfg, s.core, c.value);
    }
    StepKeepsHolders(cfg, s, l);
    StepKeepsBusy(cfg, s, l);
  }

  lemma {:induction false} RunKeepsProgress(cfg: Config, s: State, run: seq<Label>)
    requires ProgressInv(cfg, s) && ValidRun(cfg, s, run)
    ensures ProgressInv(cfg, Final(cfg, s, run))
    decreases |run|
  {
    if run != [] {
      StepKeepsProgress(cfg, s, run[0]);
      hide ProgressInv, Enabled, Next;
      RunKeepsProgress(cfg, Next(cfg, s, run[0]), run[1..]);
    }
  }

  // ----- somebody can go on -----

  /** The index of the lock a thread is about to take. */
  predicate Wants(s: State, p: Tid, i: nat) {
    p in s.control && s.control[p].stage.Locking? && s.control[p].stage.todo != [] && s.control[p].stage.todo[0] == i
  }

  /** A pending flush can take the start/finish lock, or its owner can go on. */
  lemma FlushGoesOn(cfg: Config, s: State) returns (l: Label)
    requires PendingOk(s.core) && s.core.pending != map[]
    requires s.core.store.live <= s.core.store.threads.Keys && cfg.numLocks >= 1 && cfg.blockSize >= 1
    ensures IsWork(l) && Enabled(cfg, s, l)
  {
    if s.core.owner == None {
      var p :| p in s.core.pending;
      l := Other(FlushEnter(p));
    } else if s.core.pending[s.core.owner.value].others == [] {
      l := Other(FlushLeave(s.core.owner.value));
    } else {
      l := Other(FlushOne(s.core.owner.value));
    }
  }

  /** The line of an access can be emitted when its thread has all locks and no flush to do. */
  lemma FooterEnabled(cfg: Config, s: State, p: Tid)
    requires p in s.control && Free(s.core, p) && s.core.store.threads[p].uid >= 0
    requires s.core.store.live <= s.core.store.threads.Keys && cfg.numLocks >= 1 && cfg.blockSize >= 1
    requires var st := s.control[p].stage;
             (st.Locking? && st.todo == [] && !st.access.stampedAfter) || (st.Executed? && st.at < |s.log|)
    ensures Enabled(cfg, s, Footer(p))
  {
  }

  /** Without flushes only a thread that wants a lock can be kept waiting. */
  lemma UnblockedGoesOn(cfg: Config, s: State, p: Tid) returns (l: Label)
    requires ProgressInv(cfg, s) && s.core.pending == map[] && Busy(s, p) && forall i: nat :: !Wants(s, p, i)
    ensures IsWork(l) && Enabled(cfg, s, l)
  {
    ThreadIsOk(cfg, s, p);
    var st, held := s.control[p].stage, s.control[p].held;
    assert st.Locking? && st.todo != [] ==> Wants(s, p, st.todo[0]);
    assert Owns(s, p);
    assert held != [] ==> held[0] in held;
    assert Free(s.core, p) && s.core.store.threads[p].uid >= 0 && s.core.store.live <= s.core.store.threads.Keys;
    hide LogOk, Ordered, ThreadsOk, ReadyOk, ExecutedOk, SeenOk, RowsOk, Covers, Locks, CoreEnabled;
    if st.Executed? || (st.Locking? && !st.access.stampedAfter) {
      FooterEnabled(cfg, s, p);
      l := Footer(p);
    } else {
      l := if st.Between? then Unlock(p) else Run(p);
    }
  }

  /** A thread wants a lock above all it holds. */
  lemma WantsAbove(cfg: Config, s: State, p: Tid, i: nat, j: nat)
    requires AtomicInv(cfg, s) && Wants(s, p, j) && i in s.control[p].held
    ensures i < j
  {
    ThreadIsOk(cfg, s, p);
    var st, held := s.control[p].stage, s.control[p].held;
    LockOrderKept(cfg, st.access, held, st.todo);
    var k :| 0 <= k < |held| && held[k] == i;
    assert (held + [j])[k] == i && (held + [j])[|held|] == j;
  }

  /** Following the owners of wanted locks leads upwards to a thread that can go on. */
  lemma {:induction false} BusyGoesOn(cfg: Config, s: State, p: Tid, bound: nat) returns (l: Label)
    requires ProgressInv(cfg, s) && s.core.pending == map[] && Busy(s, p)
    requires forall i: nat :: Wants(s, p, i) ==> cfg.numLocks <= i + bound
    ensures IsWork(l) && Enabled(cfg, s, l)
    decreases bound
  {
    if i: nat :| Wants(s, p, i) {
      WantedExists(cfg, s, p, i);
      if s.owners[i] == None {
        l := Lock(p);
      } else {
        var q := s.owners[i].value;
        assert i in s.control[q].held;
        forall j: nat | Wants(s, q, j) ensures i < j {
          WantsAbove(cfg, s, q, i, j);
        }
        hide AtomicInv, FlushInv, OwnersHold, BusyIsLive, Enabled;
        l := BusyGoesOn(cfg, s, q, bound - 1);
      }
    } else {
      l := UnblockedGoesOn(cfg, s, p);
    }
  }

  lemma WantedExists(cfg: Config, s: State, p: Tid, i: nat)
    requires AtomicInv(cfg, s) && Wants(s, p, i)
    ensures i < cfg.numLocks == |s.owners| == |s.stamps|
  {
    ThreadIsOk(cfg, s, p);
    var st := s.control[p].stage;
    LockListMeaning(st.access, cfg.blockSize, cfg.numLocks);
    assert (s.control[p].held + st.todo)[|s.control[p].held|] == i;
    assert i in Locks(cfg, st.access);
  }

  lemma SomebodyGoesOn(cfg: Config, s: State) returns (l: Label)
    requires ProgressInv(cfg, s) && HasWork(s)
    ensures IsWork(l) && Enabled(cfg, s, l)
  {
    if s.core.pending != map[] {
      assert s.core.store.live <= s.core.store.threads.Keys;
      l := FlushGoesOn(cfg, s);
    } else {
      var p :| Busy(s, p);
      l := BusyGoesOn(cfg, s, p, cfg.numLocks);
    }
  }

  /**
    No deadlock. In every state that any interleaving can reach, if a thread is in the middle of an
    instruction, holds an address lock or has a flush to do, some thread can take its next lock, stamp,
    execute, release a lock, or go on flushing.
  */
  lemma NobodyGetsStuck(cfg: Config, m: Memory, run: seq<Label>) returns (l: Label)
    requires Sane(cfg) && ValidRun(cfg, Initial(cfg, m), run) && HasWork(Final(cfg, Initial(cfg, m), run))
    ensures IsWork(l) && Enabled(cfg, Final(cfg, Initial(cfg, m), run), l)
  {
    InitialProgress(cfg, m);
    RunKeepsProgress(cfg, Initial(cfg, m), run);
    l := SomebodyGoesOn(cfg, Final(cfg, Initial(cfg, m), run));
  }

  // ----- and going on ends -----

  /** How many steps an instruction and its locks still take, at most. */
  function Left(c: Control): nat {
    |c.held| + match c.stage
               case Between => 0
               case Locking(_, todo, _) => 2 * |todo| + 3
               case Ready(_, _) => 1
               case Executed(_, _, _) => 1
  }

  function InstructionsLeft(control: map<Tid, Control>, n: nat): nat {
    SumTo(p => if p in control then Left(control[p]) else 0, n)
  }

  function FlushesLeft(c: Core, n: nat): nat {
    SumTo(p => if p in c.pending then |c.pending[p].others| + 2 else 0, n) + if c.owner.None? then 1 else 0
  }

  ghost predicate Below(s: State, n: nat) {
    (forall p :: p in s.control ==> p < n) && forall p :: p in s.core.pending ==> p < n
  }

  lemma InstructionShrinks(a: map<Tid, Control>, b: map<Tid, Control>, p: Tid, n: nat)
    requires p in a && p < n && b == a[p := if p in b then b[p] else a[p]] && Left(b[p]) < Left(a[p])
    ensures InstructionsLeft(b, n) < InstructionsLeft(a, n)
  {
    hide Left;
    SumChanges(q => if q in a then Left(a[q]) else 0, q => if q in b then Left(b[q]) else 0, p, n);
  }

  lemma FlushShrinks(c: Core, d: Core, p: Tid, n: nat)
    requires p in c.pending && p < n
    requires || (d.pending == c.pending && c.owner.None? && d.owner.Some?)
             || (p in d.pending && d.pending == c.pending[p := d.pending[p]] && d.owner == c.owner
                 && |d.pending[p].others| < |c.pending[p].others|)
             || (d.pending == c.pending - {p} && d.owner.None?)
    ensures FlushesLeft(d, n) < FlushesLeft(c, n)
  {
    SumChanges(q => if q in c.pending then |c.pending[q].others| + 2 else 0,
               q => if q in d.pending then |d.pending[q].others| + 2 else 0, p, n);
  }

  lemma FlushStepShrinks(cfg: Config, s: State, c: CoreLabel, n: nat)
    requires Enabled(cfg, s, Other(c)) && IsWork(Other(c)) && Below(s, n)
    ensures var t := Next(cfg, s, Other(c));
            Below(t, n) && t.control == s.control && FlushesLeft(t.core, n) < FlushesLeft(s.core, n)
  {
    hide FlushesLeft, FlushOther;
    FlushShrinks(s.core, CoreNext(cfg, s.core, c), c.p, n);
  }

  lemma FooterShrinks(cfg: Config, s: State, p: Tid, n: nat)
    requires Enabled(cfg, s, Footer(p)) && Below(s, n)
    ensures var t := Next(cfg, s, Footer(p));
            Below(t, n) && InstructionsLeft(t.control, n) < InstructionsLeft(s.control, n)
  {
    hide InstructionsLeft, Touch, Emit;
    InstructionShrinks(s.control, Next(cfg, s, Footer(p)).control, p, n);
  }

  /** Every step of the work leaves less of it: fewer steps of instructions, or as many and fewer of flushes. */
  lemma WorkShrinks(cfg: Config, s: State, l: Label, n: nat)
    requires Enabled(cfg, s, l) && IsWork(l) && Below(s, n)
    ensures var t := Next(cfg, s, l);
            && Below(t, n)
            && (|| InstructionsLeft(t.control, n) < InstructionsLeft(s.control, n)
                || (t.control == s.control && FlushesLeft(t.core, n) < FlushesLeft(s.core, n)))
  {
    hide InstructionsLeft, FlushesLeft, CoreNext, CoreEnabled;
    match l
    case Other(c) => FlushStepShrinks(cfg, s, c, n);
    case Footer(p) => FooterShrinks(cfg, s, p, n);
    case Lock(p) => InstructionShrinks(s.control, Next(cfg, s, l).control, p, n);
    case Run(p) => InstructionShrinks(s.control, Next(cfg, s, l).control, p, n);
    case Unlock(p) => InstructionShrinks(s.control, Next(cfg, s, l).control, p, n);
  }

  lemma {:induction false} Finish(cfg: Config, s: State, n: nat) returns (rest: seq<Label>)
    requires ProgressInv(cfg, s) && Below(s, n)
    ensures ValidRun(cfg, s, rest) && (forall l :: l in rest ==> IsWork(l)) && !HasWork(Final(cfg, s, rest))
    decreases InstructionsLeft(s.control, n), FlushesLeft(s.core, n)
  {
    if HasWork(s) {
      var l := SomebodyGoesOn(cfg, s);
      WorkShrinks(cfg, s, l, n);
      StepKeepsProgress(cfg, s, l);
      hide ProgressInv, Enabled, Next, Below, HasWork, IsWork, InstructionsLeft, FlushesLeft;
      var more := Finish(cfg, Next(cfg, s, l), n);
      rest := [l] + more;
      assert rest[1..] == more;
    } else {
      rest := [];
    }
  }

  /**
    From every state that any interleaving can reach the threads can complete what they are doing: every
    instruction executed, stamped and written, every flush done, every lock released.
  */
  lemma WorkGetsDone(cfg: Config, m: Memory, run: seq<Label>) returns (rest: seq<Label>)
    requires Sane(cfg) && ValidRun(cfg, Initial(cfg, m), run)
    ensures var s := Final(cfg, Initial(cfg, m), run);
            && ValidRun(cfg, s, rest) && (forall l :: l in rest ==> IsWork(l))
            && var t := Final(cfg, s, rest);
            && t.core.pending == map[] && (forall p :: p in t.control ==> Idle(t, p))
            && (forall i :: 0 <= i < |t.owners| ==> t.owners[i] == None)
  {
    InitialProgress(cfg, m);
    RunKeepsProgress(cfg, Initial(cfg, m), run);
    var s := Final(cfg, Initial(cfg, m), run);
    var n := HighestTid(s.control.Keys);
    assert Below(s, n) by {
      KeysAgree(cfg, s);
    }
    rest := Finish(cfg, s, n);
    RunKeepsProgress(cfg, s, rest);
    Settled(Final(cfg, s, rest));
  }

  /** Without work all threads are idle and all locks are free. */
  lemma Settled(s: State)
    requires OwnersHold(s) && !HasWork(s)
    ensures s.core.pending == map[] && (forall p :: p in s.control ==> Idle(s, p))
    ensures forall i :: 0 <= i < |s.owners| ==> s.owners[i] == None
  {
    forall p | p in s.control ensures Idle(s, p) {
      assert !Busy(s, p);
    }
  }
}
