/**
  The tracer's routines and nothing else: what they use, which address locks a thread holds between them, that
  no two threads use the same data at once, and that threads never block each other for good.
*/
module LockRoutines {
  import opened Access
  import opened LockArithmetic
  import opened LockOrder
  import opened Sums

  /** A call of an analysis or callback routine, with what its locking depends on. */
  datatype Visit =
    | VisitHeader
    | VisitAcquire(access: Access, blockSize: int, numLocks: int)
    | VisitFooter(write: bool, others: seq<(Tid, bool)>)
    | VisitRelease
    | VisitCall(write: bool, others: seq<(Tid, bool)>)
    | VisitBroadcast(live: seq<Tid>, writes: nat)
    | VisitStart(traced: bool, live: seq<Tid>, writes: nat)
    | VisitFinish(traced: bool, live: seq<Tid>, writes: nat, write: bool)

  /**
    What the routines rely on: locks are acquired, and threads start, with an empty lock list; all thread
    locks are taken in the order of a map's keys.
  */
  ghost predicate VisitOk(list: seq<nat>, v: Visit) {
    match v
    case VisitAcquire(a, bs, n) => list == [] && Legal(a) && bs >= 1 && n >= 1
    case VisitBroadcast(live, _) => Rising(live)
    case VisitStart(_, live, _) => list == [] && Rising(live)
    case VisitFinish(_, live, _, _) => Rising(live)
    case _ => true
  }

  ghost function ScriptOf(p: Tid, list: seq<nat>, v: Visit): seq<Op>
    requires VisitOk(list, v)
  {
    match v
    case VisitHeader => HeaderScript(list, p)
    case VisitAcquire(a, bs, n) => AcquireAddresses(LockList(a, bs, n))
    case VisitFooter(write, others) => FooterScript(p, write, others)
    case VisitRelease => ReleaseAddresses(list)
    case VisitCall(write, others) => CallScript(list, p, write, others)
    case VisitBroadcast(live, writes) => BroadcastScript(list, live, writes)
    case VisitStart(traced, live, writes) => StartScript(p, traced, live, writes)
    case VisitFinish(traced, live, writes, write) => FinishScript(list, p, traced, live, writes, write)
  }

  /** `index_lock_list` after the routine. */
  ghost function ListAfter(list: seq<nat>, v: Visit): seq<nat>
    requires VisitOk(list, v)
  {
    match v
    case VisitAcquire(a, bs, n) => LockList(a, bs, n)
    case VisitFooter(_, _) => list
    case _ => []
  }

  /** Every routine keeps to the lock order and leaves exactly the locks on the list. */
  lemma VisitIsRoutine(p: Tid, list: seq<nat>, v: Visit)
    requires Rising(list) && VisitOk(list, v)
    ensures Routine(Addresses(list), ScriptOf(p, list, v)) && Rising(ListAfter(list, v))
    ensures After(Addresses(list), ScriptOf(p, list, v)) == Addresses(ListAfter(list, v))
  {
    hide HeaderScript, FooterScript, CallScript, BroadcastScript, StartScript, FinishScript, Routine, After, LockList;
    assert Addresses([]) == {};
    match v
    case VisitHeader => HeaderOk(list, p);
    case VisitAcquire(a, bs, n) =>
      LockListMeaning(a, bs, n);
      LockListScript(a, bs, n);
    case VisitFooter(write, others) => FooterOk(list, p, write, others);
    case VisitRelease => ReleaseOk(list);
    case VisitCall(write, others) => CallOk(list, p, write, others);
    case VisitBroadcast(live, writes) => BroadcastOk(list, live, writes);
    case VisitStart(traced, live, writes) => StartOk(p, traced, live, writes);
    case VisitFinish(traced, live, writes, write) => FinishOk(list, p, traced, live, writes, write);
  }

  // ----- what the routines use -----

  /** How often a script uses the data. */
  function Uses(script: seq<Op>, d: Data): nat {
    if script == [] then 0 else Uses(script[..|script| - 1], d) + Bit(script[|script| - 1] == Use(d))
  }

  lemma {:induction false} UsesAppend(a: seq<Op>, b: seq<Op>, d: Data)
    ensures Uses(a + b, d) == Uses(a, d) + Uses(b, d)
  {
    if b == [] {
      assert a + b == a;
    } else {
      assert (a + b)[..|a + b| - 1] == a + b[..|b| - 1];
      UsesAppend(a, b[..|b| - 1], d);
    }
  }

  lemma UsesSnoc(a: seq<Op>, op: Op, d: Data)
    ensures Uses(a + [op], d) == Uses(a, d) + Bit(op == Use(d))
    ensures Uses([op], d) == Bit(op == Use(d))
  {
    assert (a + [op])[..|a|] == a;
    assert [op][..0] == [];
  }

  /** How often `t` is on a list. */
  function Times(ts: seq<nat>, t: nat): nat {
    if ts == [] then 0 else Times(ts[..|ts| - 1], t) + Bit(ts[|ts| - 1] == t)
  }

  lemma {:induction false} OnceIfRising(ts: seq<nat>, t: nat)
    requires Rising(ts)
    ensures Times(ts, t) == Bit(t in ts)
  {
    if ts != [] {
      OnceIfRising(ts[..|ts| - 1], t);
      assert ts == ts[..|ts| - 1] + [ts[|ts| - 1]];
    }
  }

  /** The visits to other threads, and the writes among them. */
  function Visited(us: seq<(Tid, bool)>, t: Tid): nat {
    if us == [] then 0 else Visited(us[..|us| - 1], t) + Bit(us[|us| - 1].0 == t)
  }

  function Announced(us: seq<(Tid, bool)>): nat {
    if us == [] then 0 else Announced(us[..|us| - 1]) + Bit(us[|us| - 1].1)
  }

  lemma {:induction false} AddressUses(list: seq<nat>, d: Data)
    ensures Uses(AcquireAddresses(list), d) == (if d.Stamp? then Times(list, d.index) else 0)
    ensures Uses(ReleaseAddresses(list), d) == (if d.Stamp? then Times(list, d.index) else 0)
  {
    if list != [] {
      var i, rest := list[|list| - 1], list[..|list| - 1];
      AddressUses(rest, d);
      UsesSnoc(AcquireAddresses(rest), Acquire(Address(i)), d);
      UsesSnoc(AcquireAddresses(rest) + [Acquire(Address(i))], Use(Stamp(i)), d);
      UsesSnoc(ReleaseAddresses(rest), Use(Stamp(i)), d);
      UsesSnoc(ReleaseAddresses(rest) + [Use(Stamp(i))], Release(Address(i)), d);
    }
  }

  lemma {:induction false} WriteUses(n: nat, d: Data)
    ensures Uses(WriteTimes(n), d) == (if d.FileAndTable? then n else 0)
  {
    if n > 0 {
      WriteUses(n - 1, d);
      UsesSnoc(WriteTimes(n - 1), Acquire(File), d);
      UsesSnoc(WriteTimes(n - 1) + [Acquire(File)], Use(FileAndTable), d);
      UsesSnoc(WriteTimes(n - 1) + [Acquire(File)] + [Use(FileAndTable)], Release(File), d);
    }
  }

  lemma {:induction false} ThreadUses(ts: seq<Tid>, d: Data)
    ensures Uses(AcquireThreads(ts), d) == (if d.ThreadState? then Times(ts, d.tid) else 0)
    ensures Uses(ReleaseThreads(ts), d) == (if d.ThreadState? then Times(ts, d.tid) else 0)
  {
    if ts != [] {
      var t, rest := ts[|ts| - 1], ts[..|ts| - 1];
      ThreadUses(rest, d);
      UsesSnoc(AcquireThreads(rest), Acquire(ThreadLock(t)), d);
      UsesSnoc(AcquireThreads(rest) + [Acquire(ThreadLock(t))], Use(ThreadState(t)), d);
      UsesSnoc(ReleaseThreads(rest), Use(ThreadState(t)), d);
      UsesSnoc(ReleaseThreads(rest) + [Use(ThreadState(t))], Release(ThreadLock(t)), d);
    }
  }

  lemma CriticalUses(t: Tid, write: bool, d: Data)
    ensures Uses(Critical(t, write), d)
            == (if d.ThreadState? then Bit(d.tid == t) else if d.FileAndTable? then Bit(write) else 0)
  {
    var begun := [Acquire(ThreadLock(t))] + [Use(ThreadState(t))];
    UsesSnoc([], Acquire(ThreadLock(t)), d);
    UsesSnoc([Acquire(ThreadLock(t))], Use(ThreadState(t)), d);
    WriteUses(Bit(write), d);
    UsesAppend(begun, WriteTimes(Bit(write)), d);
    UsesSnoc(begun + WriteTimes(Bit(write)), Release(ThreadLock(t)), d);
  }

  lemma {:induction false} CriticalsUses(us: seq<(Tid, bool)>, d: Data)
    ensures Uses(Criticals(us), d)
            == (if d.ThreadState? then Visited(us, d.tid) else if d.FileAndTable? then Announced(us) else 0)
  {
    if us != [] {
      var u, rest := us[|us| - 1], us[..|us| - 1];
      CriticalsUses(rest, d);
      CriticalUses(u.0, u.1, d);
      hide Critical, Uses;
      UsesAppend(Criticals(rest), Critical(u.0, u.1), d);
    } else {
      assert Uses([], d) == 0;
    }
  }

  lemma FlushUses(us: seq<(Tid, bool)>, d: Data)
    ensures Uses(Flush(us), d)
            == (if d.ThreadState? then Visited(us, d.tid) else if d.FileAndTable? then Announced(us)
                else if d.LiveSet? then Bit(us != []) else 0)
  {
    if us != [] {
      var begun := [Acquire(StartFinish)] + [Use(LiveSet)];
      UsesSnoc([], Acquire(StartFinish), d);
      UsesSnoc([Acquire(StartFinish)], Use(LiveSet), d);
      CriticalsUses(us, d);
      UsesAppend(begun, Criticals(us), d);
      UsesSnoc(begun + Criticals(us), Release(StartFinish), d);
    }
  }

  lemma GloballyUses(live: seq<Tid>, writes: nat, d: Data)
    requires Rising(live)
    ensures Uses(Globally(live, writes), d)
            == (if d.ThreadState? then 2 * Bit(d.tid in live) else if d.FileAndTable? then writes else 0)
  {
    if d.ThreadState? {
      OnceIfRising(live, d.tid);
    }
    ThreadUses(live, d);
    WriteUses(writes, d);
    UsesAppend(AcquireThreads(live), WriteTimes(writes), d);
    UsesAppend(AcquireThreads(live) + WriteTimes(writes), ReleaseThreads(live), d);
  }

  lemma UnderUses(list: seq<nat>, body: seq<Op>, d: Data)
    requires Rising(list)
    ensures Uses(UnderStartFinish(list, body), d)
            == Uses(body, d) + (if d.Stamp? then Bit(d.index in list) else Bit(d.LiveSet?))
  {
    if d.Stamp? {
      OnceIfRising(list, d.index);
    }
    var r := ReleaseAddresses(list);
    AddressUses(list, d);
    UsesSnoc(r, Acquire(StartFinish), d);
    UsesSnoc(r + [Acquire(StartFinish)], Use(LiveSet), d);
    var begun := r + [Acquire(StartFinish)] + [Use(LiveSet)];
    hide Uses;
    UsesAppend(begun, body, d);
    UsesSnoc(begun + body, Release(StartFinish), d);
  }

  /** How often a routine of thread `p` uses its own data, other threads' data and the file. */
  function Needs(p: Tid, list: seq<nat>, v: Visit, d: Data): nat {
    match d
    case FileAndTable => FileWrites(v)
    case LiveSet => SetUses(v)
    case ThreadState(t) => ThreadVisits(p, v, t)
    case Stamp(i) => StampUses(list, v, i)
  }

  /** One use of the file and the table for each write, and one for the row of a thread that starts. */
  function FileWrites(v: Visit): nat {
    match v
    case VisitFooter(write, others) => Bit(write) + Announced(others)
    case VisitCall(write, others) => Bit(write) + Announced(others)
    case VisitBroadcast(_, writes) => writes
    case VisitStart(traced, _, writes) => (if traced then writes else 0) + 1
    case VisitFinish(traced, _, writes, write) => (if traced then writes else 0) + Bit(write)
    case _ => 0
  }

  /** Flushes and events under all locks look at the live set; starts and ends also change it. */
  function SetUses(v: Visit): nat {
    match v
    case VisitFooter(_, others) => Bit(others != [])
    case VisitCall(_, others) => Bit(others != [])
    case VisitBroadcast(_, _) => 1
    case VisitStart(_, _, _) => 2
    case VisitFinish(_, _, _, _) => 2
    case _ => 0
  }

  /** Its own data, that of each thread it flushes, and twice that of each live thread in events under all locks. */
  function ThreadVisits(p: Tid, v: Visit, t: Tid): nat {
    match v
    case VisitHeader => Bit(t == p)
    case VisitFooter(_, others) => Bit(t == p) + Visited(others, t)
    case VisitCall(_, others) => Bit(t == p) + Visited(others, t)
    case VisitBroadcast(live, _) => 2 * Bit(t in live)
    case VisitStart(traced, live, _) => if traced then 2 * Bit(t in live) else Bit(t == p)
    case VisitFinish(traced, live, _, _) => (if traced then 2 * Bit(t in live) else 0) + Bit(t == p)
    case _ => 0
  }

  /** The stamp of every lock that is taken or given back. */
  function StampUses(list: seq<nat>, v: Visit, i: nat): nat {
    match v
    case VisitAcquire(a, bs, n) => if Legal(a) && bs >= 1 && n >= 1 then Bit(i in LockList(a, bs, n)) else 0
    case VisitFooter(_, _) => 0
    case _ => Bit(i in list)
  }

  /**
    Every routine uses what it announces, each use under the lock for it: for every write the file once, its own
    data and that of all threads it flushes or synchronises, and the stamps of the locks on its list.
  */
  lemma RoutineUses(p: Tid, list: seq<nat>, v: Visit, d: Data)
    requires Rising(list) && VisitOk(list, v)
    ensures Uses(ScriptOf(p, list, v), d) == Needs(p, list, v, d)
  {
    hide Uses, Critical, Flush, Globally, UnderStartFinish, LockList, ReleaseAddresses, AcquireAddresses, Rising;
    AddressUses(list, d);
    if d.Stamp? {
      OnceIfRising(list, d.index);
    }
    match v
    case VisitHeader =>
      CriticalUses(p, false, d);
      UsesAppend(ReleaseAddresses(list), Critical(p, false), d);
    case VisitAcquire(a, bs, n) =>
      LockListMeaning(a, bs, n);
      AcquireUses(LockList(a, bs, n), d);
    case VisitFooter(write, others) => FooterUses(p, write, others, d);
    case VisitRelease =>
    case VisitCall(write, others) =>
      FooterUses(p, write, others, d);
      UsesAppend(ReleaseAddresses(list), FooterScript(p, write, others), d);
    case VisitBroadcast(live, writes) =>
      GloballyUses(live, writes, d);
      UnderUses(list, Globally(live, writes), d);
    case VisitStart(traced, live, writes) => StartUses(p, traced, live, writes, d);
    case VisitFinish(traced, live, writes, write) => FinishUses(list, p, traced, live, writes, write, d);
  }

  lemma AcquireUses(list: seq<nat>, d: Data)
    requires Rising(list)
    ensures Uses(AcquireAddresses(list), d) == (if d.Stamp? then Bit(d.index in list) else 0)
  {
    AddressUses(list, d);
    if d.Stamp? {
      OnceIfRising(list, d.index);
    }
  }

  lemma FooterUses(p: Tid, write: bool, others: seq<(Tid, bool)>, d: Data)
    ensures Uses(FooterScript(p, write, others), d) == Needs(p, [], VisitFooter(write, others), d)
  {
    hide Uses, Critical, Flush;
    CriticalUses(p, write, d);
    FlushUses(others, d);
    UsesAppend(Critical(p, write), Flush(others), d);
  }

  lemma StartUses(p: Tid, traced: bool, live: seq<Tid>, writes: nat, d: Data)
    requires Rising(live)
    ensures Uses(StartScript(p, traced, live, writes), d) == Needs(p, [], VisitStart(traced, live, writes), d)
  {
    hide Uses, Critical, Globally, UnderStartFinish, WriteTimes;
    GloballyUses(live, writes, d);
    CriticalUses(p, false, d);
    WriteUses(1, d);
    var first := if traced then Globally(live, writes) else Critical(p, false);
    UsesSnoc(first, Use(LiveSet), d);
    UsesAppend(first + [Use(LiveSet)], WriteTimes(1), d);
    UnderUses([], first + [Use(LiveSet)] + WriteTimes(1), d);
  }

  lemma NothingUsed(d: Data)
    ensures Uses([], d) == 0
  {
  }

  lemma FinishUses(list: seq<nat>, p: Tid, traced: bool, live: seq<Tid>, writes: nat, write: bool, d: Data)
    requires Rising(list) && Rising(live)
    ensures Uses(FinishScript(list, p, traced, live, writes, write), d)
            == Needs(p, list, VisitFinish(traced, live, writes, write), d)
  {
    hide Critical, Globally, UnderStartFinish, Uses, Rising;
    GloballyUses(live, writes, d);
    CriticalUses(p, write, d);
    NothingUsed(d);
    var first := if traced then Globally(live, writes) else [];
    UsesSnoc(first, Use(LiveSet), d);
    UsesAppend(first + [Use(LiveSet)], Critical(p, write), d);
    UnderUses(list, first + [Use(LiveSet)] + Critical(p, write), d);
  }

  // ----- the threads -----

  /** The locks and scripts of all threads, and the lock list of each as its current routine leaves it. */
  datatype Tracer = Tracer(locks: State, lists: map<Tid, seq<nat>>)

  datatype Step = Appear(p: Tid) | Visiting(p: Tid, v: Visit) | Operate(p: Tid)

  const NOBODY := Tracer(map[], map[])

  ghost predicate Possible(t: Tracer, l: Step) {
    match l
    case Appear(p) => p !in t.locks
    case Visiting(p, v) => p in t.locks && p in t.lists && t.locks[p].script == [] && VisitOk(t.lists[p], v)
    case Operate(p) => Enabled(t.locks, Do(p))
  }

  ghost function Take(t: Tracer, l: Step): Tracer
    requires Possible(t, l)
  {
    match l
    case Appear(p) => Tracer(Next(t.locks, Spawn(p)), t.lists[p := []])
    case Visiting(p, v) =>
      Tracer(t.locks[p := Thread(t.locks[p].held, ScriptOf(p, t.lists[p], v))], t.lists[p := ListAfter(t.lists[p], v)])
    case Operate(p) => t.(locks := Next(t.locks, Do(p)))
  }

  /** Once a thread's routine is done it will hold exactly the locks on its list. */
  ghost predicate ListOk(t: Tracer, p: Tid)
    requires p in t.locks && p in t.lists
  {
    Rising(t.lists[p]) && After(t.locks[p].held, t.locks[p].script) == Addresses(t.lists[p])
  }

  ghost predicate TracerInv(t: Tracer) {
    LockInv(t.locks) && t.lists.Keys == t.locks.Keys && forall p :: p in t.locks ==> ListOk(t, p)
  }

  /** A routine is entered as the lock order demands. */
  lemma VisitIsEntry(t: Tracer, p: Tid, v: Visit)
    requires TracerInv(t) && Possible(t, Visiting(p, v))
    ensures var enter := Enter(p, ScriptOf(p, t.lists[p], v));
            Enabled(t.locks, enter) && Take(t, Visiting(p, v)).locks == Next(t.locks, enter)
    ensures ListOk(Take(t, Visiting(p, v)), p)
  {
    assert ListOk(t, p);
    assert t.locks[p].held == Addresses(t.lists[p]);
    VisitIsRoutine(p, t.lists[p], v);
  }

  lemma StepKeepsLists(t: Tracer, l: Step)
    requires TracerInv(t) && Possible(t, l)
    ensures TracerInv(Take(t, l))
  {
    hide VisitOk, ScriptOf, ListAfter, Routine, Rising;
    match l
    case Appear(p) =>
      StepKeeps(t.locks, Spawn(p));
      NewThread(t, p);
    case Visiting(p, v) =>
      VisitIsEntry(t, p, v);
      StepKeeps(t.locks, Enter(p, ScriptOf(p, t.lists[p], v)));
      OthersStay(t, Take(t, l), p);
    case Operate(p) =>
      StepKeeps(t.locks, Do(p));
      assert ListOk(t, p);
      OthersStay(t, Take(t, l), p);
  }

  lemma NewThread(t: Tracer, p: Tid)
    requires TracerInv(t) && p !in t.locks && LockInv(Take(t, Appear(p)).locks)
    ensures TracerInv(Take(t, Appear(p)))
  {
    var d := Take(t, Appear(p));
    assert Addresses([]) == {};
    forall q | q in d.locks ensures ListOk(d, q) {
      if q != p {
        assert ListOk(t, q);
      }
    }
  }

  lemma OthersStay(t: Tracer, d: Tracer, p: Tid)
    requires TracerInv(t) && p in d.locks && p in d.lists && ListOk(d, p) && LockInv(d.locks)
    requires d.locks == t.locks[p := d.locks[p]] && d.lists == t.lists[p := d.lists[p]] && p in t.locks
    ensures TracerInv(d)
  {
    forall q | q in d.locks ensures ListOk(d, q) {
      if q != p {
        assert ListOk(t, q);
      }
    }
  }

  ghost predicate Runs(t: Tracer, run: seq<Step>)
    decreases |run|
  {
    run == [] || (Possible(t, run[0]) && Runs(Take(t, run[0]), run[1..]))
  }

  ghost function EndOf(t: Tracer, run: seq<Step>): Tracer
    requires Runs(t, run)
    decreases |run|
  {
    if run == [] then t else EndOf(Take(t, run[0]), run[1..])
  }

  lemma {:induction false} RunKeepsLists(t: Tracer, run: seq<Step>)
    requires TracerInv(t) && Runs(t, run)
    ensures TracerInv(EndOf(t, run))
    decreases |run|
  {
    if run != [] {
      StepKeepsLists(t, run[0]);
      hide TracerInv, Possible, Take;
      RunKeepsLists(Take(t, run[0]), run[1..]);
    }
  }

  /** Whatever routines the threads enter, between routines each holds exactly the locks on its list. */
  lemma HeldIsList(run: seq<Step>, p: Tid)
    requires Runs(NOBODY, run)
    ensures var t := EndOf(NOBODY, run);
            && t.lists.Keys == t.locks.Keys
            && (p in t.locks && t.locks[p].script == [] ==> t.locks[p].held == Addresses(t.lists[p]))
            && (forall q, l :: p in t.locks && q in t.locks && p != q && l in t.locks[p].held ==> l !in t.locks[q].held)
  {
    RunKeepsLists(NOBODY, run);
    var t := EndOf(NOBODY, run);
    if p in t.locks {
      assert ListOk(t, p);
    }
  }

  /**
    No data race: whatever routines the threads enter, one that is about to use shared data holds the lock for
    it, and no other thread is about to use the same data.
  */
  lemma DataIsExclusive(run: seq<Step>, p: Tid, d: Data)
    requires Runs(NOBODY, run) && AboutToUse(EndOf(NOBODY, run).locks, p, d)
    ensures var s := EndOf(NOBODY, run).locks;
            && Guard(d) in s[p].held
            && forall q :: q != p ==> !AboutToUse(s, q, d) && (q in s ==> Guard(d) !in s[q].held)
  {
    RunKeepsLists(NOBODY, run);
    var s := EndOf(NOBODY, run).locks;
    UserHoldsGuard(s, p, d);
    forall q | q != p ensures !AboutToUse(s, q, d) {
      if AboutToUse(s, q, d) {
        UserHoldsGuard(s, q, d);
      }
    }
  }

  // ----- all lock work can be brought to an end -----

  /** A thread goes on with its routine, or, between routines, gives its address locks back. */
  ghost predicate GoesOn(t: Tracer, l: Step) {
    Possible(t, l) && (l.Operate? || (l.Visiting? && l.v.VisitRelease? && t.lists[l.p] != []))
  }

  lemma SomebodyIsFree(t: Tracer, p: Tid) returns (l: Step)
    requires TracerInv(t) && HasWork(t.locks, p)
    ensures GoesOn(t, l) && l.p in t.locks
  {
    SomebodyGoesOn(t.locks, p);
    var q :| HasWork(t.locks, q) && CanGoOn(t.locks, q);
    assert ListOk(t, q);
    assert Addresses([]) == {};
    l := if t.locks[q].script == [] then Visiting(q, VisitRelease) else Operate(q);
  }

  /** Operations that a thread has before it, if it enters no routine but the one that releases. */
  function Todo(t: Tracer, p: Tid): nat {
    (if p in t.locks then |t.locks[p].script| else 0)
    + (if p in t.lists && t.lists[p] != [] then 2 * |t.lists[p]| + 1 else 0)
  }

  function AllTodo(t: Tracer, n: nat): nat {
    SumTo(p => Todo(t, p), n)
  }

  lemma {:induction false} ReleaseLength(list: seq<nat>)
    ensures |ReleaseAddresses(list)| == 2 * |list|
  {
    if list != [] {
      ReleaseLength(list[..|list| - 1]);
    }
  }

  lemma GoingOnShrinks(t: Tracer, l: Step, n: nat)
    requires TracerInv(t) && GoesOn(t, l) && l.p < n
    ensures AllTodo(Take(t, l), n) < AllTodo(t, n) && Take(t, l).locks.Keys == t.locks.Keys
  {
    var d := Take(t, l);
    if l.Visiting? {
      ReleaseLength(t.lists[l.p]);
    }
    assert Todo(d, l.p) < Todo(t, l.p);
    assert forall q :: q != l.p ==> Todo(d, q) == Todo(t, q);
    hide Todo;
    SumChanges(q => Todo(t, q), q => Todo(d, q), l.p, n);
  }

  ghost predicate Idle(t: Tracer) {
    forall p :: p in t.locks ==> t.locks[p].script == [] && t.locks[p].held == {} && p in t.lists && t.lists[p] == []
  }

  lemma NoWorkIsIdle(t: Tracer)
    requires TracerInv(t) && forall p :: !HasWork(t.locks, p)
    ensures Idle(t)
  {
    forall p | p in t.locks ensures t.locks[p].script == [] && t.locks[p].held == {} && t.lists[p] == [] {
      EmptyList(t.lists[p]);
      assert !HasWork(t.locks, p) && ListOk(t, p);
    }
  }

  lemma EmptyList(list: seq<nat>)
    ensures Addresses(list) == {} <==> list == []
  {
    if list != [] {
      assert Address(list[0]) in Addresses(list);
    }
  }

  lemma {:induction false} Unwind(t: Tracer, n: nat) returns (rest: seq<Step>)
    requires TracerInv(t) && forall p :: p in t.locks ==> p < n
    ensures Runs(t, rest) && Idle(EndOf(t, rest))
    ensures forall l :: l in rest ==> l.Operate? || (l.Visiting? && l.v.VisitRelease?)
    decreases AllTodo(t, n)
  {
    if p :| HasWork(t.locks, p) {
      var l := SomebodyIsFree(t, p);
      GoingOnShrinks(t, l, n);
      StepKeepsLists(t, l);
      hide TracerInv, Possible, Take, AllTodo, HasWork, Idle;
      var more := Unwind(Take(t, l), n);
      rest := [l] + more;
      assert rest[1..] == more;
    } else {
      NoWorkIsIdle(t);
      rest := [];
    }
  }

  /**
    The tracer does not deadlock. From every state that threads calling its routines can reach, they can
    finish the routines they are in and give all locks back, with no step but operations of
    scripts and releases.
  */
  lemma LocksGetFree(run: seq<Step>) returns (rest: seq<Step>)
    requires Runs(NOBODY, run)
    ensures Runs(EndOf(NOBODY, run), rest) && Idle(EndOf(EndOf(NOBODY, run), rest))
    ensures forall l :: l in rest ==> l.Operate? || (l.Visiting? && l.v.VisitRelease?)
  {
    RunKeepsLists(NOBODY, run);
    var t := EndOf(NOBODY, run);
    var n := HighestTid(t.locks.Keys);
    rest := Unwind(t, n);
  }
}
