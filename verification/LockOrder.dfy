/**
  The locks of the tracer cannot deadlock: a thread only asks for a lock that ranks above all it holds,
  so while any lock work is left some thread can go on. And they do what they are for: a thread only uses
  shared data while it holds the lock for it, so no two threads use the same data at once.
*/
module LockOrder {
  import opened Access
  import opened LockArithmetic

  type Tid = nat

  datatype Lock = Address(index: nat) | StartFinish | ThreadLock(tid: Tid) | File

  /** What threads share: the stamp of an address lock, the live set, a thread's buffer and clock, file and table. */
  datatype Data = Stamp(index: nat) | LiveSet | ThreadState(tid: Tid) | FileAndTable

  /** The lock that protects it. */
  function Guard(d: Data): Lock {
    match d
    case Stamp(i) => Address(i)
    case LiveSet => StartFinish
    case ThreadState(t) => ThreadLock(t)
    case FileAndTable => File
  }

  datatype Op = Acquire(lock: Lock) | Release(lock: Lock) | Use(data: Data)

  /** Address locks by index, then the start/finish lock, then thread locks by thread id, then the file. */
  predicate Before(a: Lock, b: Lock) {
    Level(a) < Level(b) || (Level(a) == Level(b) && Index(a) < Index(b))
  }

  function Level(l: Lock): nat {
    match l
    case Address(_) => 0
    case StartFinish => 1
    case ThreadLock(_) => 2
    case File => 3
  }

  function Index(l: Lock): nat {
    match l
    case Address(i) => i
    case ThreadLock(t) => t
    case _ => 0
  }

  // ----- threads -----

  /** The locks a thread holds and what it still has to do in its current routine. */
  datatype Thread = Thread(held: set<Lock>, script: seq<Op>)

  type State = map<Tid, Thread>

  /** Acquires only above what is held, releases only what is held, uses data only under its lock. */
  ghost predicate Disciplined(held: set<Lock>, script: seq<Op>)
    decreases |script|
  {
    script == []
    || match script[0]
       case Acquire(l) => (forall h :: h in held ==> Before(h, l)) && Disciplined(held + {l}, script[1..])
       case Release(l) => l in held && Disciplined(held - {l}, script[1..])
       case Use(d) => Guard(d) in held && Disciplined(held, script[1..])
  }

  /** What is held after a script. */
  function After(held: set<Lock>, script: seq<Op>): set<Lock>
    decreases |script|
  {
    if script == [] then held
    else
      match script[0]
      case Acquire(l) => After(held + {l}, script[1..])
      case Release(l) => After(held - {l}, script[1..])
      case Use(_) => After(held, script[1..])
  }

  /** Only address locks may be kept from one routine to the next. */
  ghost predicate AddressesOnly(held: set<Lock>) {
    forall l :: l in held ==> l.Address?
  }

  ghost predicate Routine(held: set<Lock>, script: seq<Op>) {
    Disciplined(held, script) && AddressesOnly(After(held, script))
  }

  ghost predicate IsFree(s: State, l: Lock) {
    forall p :: p in s ==> l !in s[p].held
  }

  datatype Label =
    | Spawn(p: Tid)                       // a thread appears
    | Enter(p: Tid, script: seq<Op>)      // its next analysis or callback routine
    | Do(p: Tid)                          // one operation

  ghost predicate Enabled(s: State, l: Label) {
    match l
    case Spawn(p) => p !in s
    case Enter(p, script) => p in s && s[p].script == [] && Routine(s[p].held, script)
    case Do(p) =>
      p in s && s[p].script != [] && (s[p].script[0].Acquire? ==> IsFree(s, s[p].script[0].lock))
  }

  ghost function Next(s: State, l: Label): State
    requires Enabled(s, l)
  {
    match l
    case Spawn(p) => s[p := Thread({}, [])]
    case Enter(p, script) => s[p := Thread(s[p].held, script)]
    case Do(p) =>
      var Thread(held, script) := s[p];
      s[p := Thread(match script[0] case Acquire(m) => held + {m} case Release(m) => held - {m} case Use(_) => held,
                    script[1..])]
  }

  ghost predicate LockInv(s: State) {
    && (forall p :: p in s ==> Routine(s[p].held, s[p].script))
    && (forall p, q, l :: p in s && q in s && p != q && l in s[p].held ==> l !in s[q].held)
  }

  lemma StepKeeps(s: State, l: Label)
    requires LockInv(s) && Enabled(s, l)
    ensures LockInv(Next(s, l))
  {
    match l
    case Do(p) => DoKeeps(s, p);
    case _ =>
  }

  lemma DoKeeps(s: State, p: Tid)
    requires LockInv(s) && Enabled(s, Do(p))
    ensures LockInv(Next(s, Do(p)))
  {
    var t := Next(s, Do(p));
    assert Routine(s[p].held, s[p].script);
    assert Routine(t[p].held, t[p].script);
    hide Disciplined, After;
  }

  ghost predicate ValidRun(s: State, run: seq<Label>)
    decreases |run|
  {
    run == [] || (Enabled(s, run[0]) && ValidRun(Next(s, run[0]), run[1..]))
  }

  ghost function Final(s: State, run: seq<Label>): State
    requires ValidRun(s, run)
    decreases |run|
  {
    if run == [] then s else Final(Next(s, run[0]), run[1..])
  }

  lemma {:induction false} RunKeeps(s: State, run: seq<Label>)
    requires LockInv(s) && ValidRun(s, run)
    ensures LockInv(Final(s, run))
    decreases |run|
  {
    if run != [] {
      StepKeeps(s, run[0]);
      RunKeeps(Next(s, run[0]), run[1..]);
    }
  }

  // ----- no data race -----

  /** Its next operation uses the data. */
  predicate AboutToUse(s: State, p: Tid, d: Data) {
    p in s && s[p].script != [] && s[p].script[0] == Use(d)
  }

  lemma UserHoldsGuard(s: State, p: Tid, d: Data)
    requires LockInv(s) && AboutToUse(s, p, d)
    ensures Guard(d) in s[p].held
  {
    assert Routine(s[p].held, s[p].script);
  }

  /**
    Whatever routines the threads enter and however they interleave, a thread about to use shared data holds
    the lock for it, and no two threads are about to use the same data.
  */
  lemma NoDataRace(run: seq<Label>, p: Tid, d: Data)
    requires ValidRun(map[], run) && AboutToUse(Final(map[], run), p, d)
    ensures var s := Final(map[], run);
            && Guard(d) in s[p].held
            && forall q :: q != p ==> !AboutToUse(s, q, d) && (q in s ==> Guard(d) !in s[q].held)
  {
    RunKeeps(map[], run);
    var s := Final(map[], run);
    UserHoldsGuard(s, p, d);
    forall q | q != p ensures !AboutToUse(s, q, d) {
      if AboutToUse(s, q, d) {
        UserHoldsGuard(s, q, d);
      }
    }
  }

  // ----- no deadlock -----

  ghost predicate Blocked(s: State, p: Tid) {
    p in s && s[p].script != [] && s[p].script[0].Acquire? && !IsFree(s, s[p].script[0].lock)
  }

  ghost function Wanted(s: State, p: Tid): Lock
    requires Blocked(s, p)
  {
    s[p].script[0].lock
  }

  /** Of the blocked threads in `ps` one waits for a lock that no other waits above. */
  lemma {:induction false} HighestWait(s: State, ps: set<Tid>) returns (p: Tid)
    requires ps != {} && forall q :: q in ps ==> Blocked(s, q)
    ensures p in ps && forall q :: q in ps && Blocked(s, p) && Blocked(s, q) ==> !Before(Wanted(s, p), Wanted(s, q))
    decreases |ps|
  {
    p :| p in ps;
    var rest := ps - {p};
    assert forall q :: q in ps ==> q == p || q in rest;
    if rest != {} {
      var q := HighestWait(s, rest);
      if Before(Wanted(s, p), Wanted(s, q)) {
        p := q;
      }
    }
  }

  lemma WaitsAbove(s: State, q: Tid, l: Lock)
    requires LockInv(s) && q in s && l in s[q].held
    ensures Blocked(s, q) ==> Before(l, Wanted(s, q))
  {
    assert Routine(s[q].held, s[q].script);
  }

  /** The holder of the highest wanted lock is not blocked. */
  lemma HolderGoesOn(s: State, p: Tid) returns (q: Tid)
    requires LockInv(s) && Blocked(s, p)
    requires forall q :: Blocked(s, q) ==> !Before(Wanted(s, p), Wanted(s, q))
    ensures q in s && s[q].held != {} && !Blocked(s, q)
  {
    q :| q in s && Wanted(s, p) in s[q].held;
    WaitsAbove(s, q, Wanted(s, p));
  }

  /** A thread has lock work while it is inside a routine or still holds address locks. */
  ghost predicate HasWork(s: State, p: Tid) {
    p in s && (s[p].script != [] || s[p].held != {})
  }

  /** A routine that gives back everything, as the tracer's routines do first. */
  ghost predicate CanRelease(held: set<Lock>) {
    exists script :: script != [] && Routine(held, script) && After(held, script) == {}
  }

  lemma {:induction false} ReleaseScript(held: set<Lock>) returns (script: seq<Op>)
    ensures Disciplined(held, script) && After(held, script) == {} && (held != {} ==> script != [])
    decreases |held|
  {
    if held == {} {
      script := [];
    } else {
      var l :| l in held;
      var rest := ReleaseScript(held - {l});
      script := [Release(l)] + rest;
      assert script[1..] == rest;
    }
  }

  lemma EverythingCanBeReleased(held: set<Lock>)
    requires held != {}
    ensures CanRelease(held)
  {
    var script := ReleaseScript(held);
    assert script != [] && Routine(held, script) && After(held, script) == {};
  }

  /** It can go on: do its next operation, or, between routines, enter one that releases its locks. */
  ghost predicate CanGoOn(s: State, p: Tid) {
    p in s && if s[p].script == [] then CanRelease(s[p].held) else Enabled(s, Do(p))
  }

  lemma SomebodyGoesOn(s: State, p: Tid)
    requires LockInv(s) && HasWork(s, p)
    ensures exists q :: HasWork(s, q) && CanGoOn(s, q)
  {
    if Blocked(s, p) {
      var blocked := set q | q in s && Blocked(s, q);
      assert p in blocked;
      var top := HighestWait(s, blocked);
      var q := HolderGoesOn(s, top);
      EverythingCanBeReleased(s[q].held);
      assert HasWork(s, q) && CanGoOn(s, q);
    } else {
      if s[p].script == [] {
        EverythingCanBeReleased(s[p].held);
      }
      assert CanGoOn(s, p);
    }
  }

  /**
    Whatever routines the threads enter and however they interleave, no two threads ever hold the same
    lock, and as long as any thread has lock work left, some thread with lock work can go on.
  */
  lemma NoDeadlock(run: seq<Label>)
    requires ValidRun(map[], run)
    ensures var s := Final(map[], run);
            && (forall p, q, l :: p in s && q in s && p != q && l in s[p].held ==> l !in s[q].held)
            && ((exists p :: HasWork(s, p)) ==> exists q :: HasWork(s, q) && CanGoOn(s, q))
  {
    RunKeeps(map[], run);
    var s := Final(map[], run);
    if p :| HasWork(s, p) {
      SomebodyGoesOn(s, p);
    }
  }

  // ----- the routines keep to the order -----

  lemma {:induction false} Then(held: set<Lock>, a: seq<Op>, b: seq<Op>)
    requires Disciplined(held, a) && Disciplined(After(held, a), b)
    ensures Disciplined(held, a + b) && After(held, a + b) == After(After(held, a), b)
    decreases |a|
  {
    if a == [] {
      assert a + b == b;
    } else {
      assert (a + b)[1..] == a[1..] + b;
      match a[0]
      case Acquire(l) => Then(held + {l}, a[1..], b);
      case Release(l) => Then(held - {l}, a[1..], b);
      case Use(_) => Then(held, a[1..], b);
    }
  }

  function Addresses(list: seq<nat>): set<Lock> {
    set i | i in list :: Address(i)
  }

  function AcquireAddresses(list: seq<nat>): seq<Op> {
    if list == [] then []
    else
      var i := list[|list| - 1];
      AcquireAddresses(list[..|list| - 1]) + [Acquire(Address(i))] + [Use(Stamp(i))]
  }

  function ReleaseAddresses(list: seq<nat>): seq<Op> {
    if list == [] then []
    else
      var i := list[|list| - 1];
      ReleaseAddresses(list[..|list| - 1]) + [Use(Stamp(i))] + [Release(Address(i))]
  }

  /** The file lock taken for file and table and released, `n` times. */
  function WriteTimes(n: nat): seq<Op> {
    if n == 0 then [] else WriteTimes(n - 1) + [Acquire(File)] + [Use(FileAndTable)] + [Release(File)]
  }

  function Bit(b: bool): nat {
    if b then 1 else 0
  }

  /** A critical section on one thread's data, in which its buffer may be written to the file. */
  function Critical(t: Tid, write: bool): seq<Op> {
    [Acquire(ThreadLock(t))] + [Use(ThreadState(t))] + WriteTimes(Bit(write)) + [Release(ThreadLock(t))]
  }

  function Criticals(us: seq<(Tid, bool)>): seq<Op> {
    if us == [] then [] else Criticals(us[..|us| - 1]) + Critical(us[|us| - 1].0, us[|us| - 1].1)
  }

  /** Flushing laggards that are live, one thread lock at a time, under the start/finish lock. */
  function Flush(us: seq<(Tid, bool)>): seq<Op> {
    if us == [] then [] else [Acquire(StartFinish)] + [Use(LiveSet)] + Criticals(us) + [Release(StartFinish)]
  }

  /** Every clock is read as its lock is taken, and set before it is released. */
  function AcquireThreads(ts: seq<Tid>): seq<Op> {
    if ts == [] then []
    else
      var t := ts[|ts| - 1];
      AcquireThreads(ts[..|ts| - 1]) + [Acquire(ThreadLock(t))] + [Use(ThreadState(t))]
  }

  function ReleaseThreads(ts: seq<Tid>): seq<Op> {
    if ts == [] then []
    else
      var t := ts[|ts| - 1];
      ReleaseThreads(ts[..|ts| - 1]) + [Use(ThreadState(t))] + [Release(ThreadLock(t))]
  }

  /** Everything that is traced under all thread locks: start/finish, the live threads in order, the file. */
  function Globally(live: seq<Tid>, writes: nat): seq<Op> {
    AcquireThreads(live) + WriteTimes(writes) + ReleaseThreads(live)
  }

  /** `memory_access_header_a`: release the locks of the last instruction, then look at the thread's data. */
  function HeaderScript(list: seq<nat>, t: Tid): seq<Op> {
    ReleaseAddresses(list) + Critical(t, false)
  }

  /** `memory_access_footer_a`, with the flush that `touch_buffer` may start. */
  function FooterScript(t: Tid, write: bool, us: seq<(Tid, bool)>): seq<Op> {
    Critical(t, write) + Flush(us)
  }

  /** Calls and returns of registered threads, and context changes. */
  function CallScript(list: seq<nat>, t: Tid, write: bool, us: seq<(Tid, bool)>): seq<Op> {
    ReleaseAddresses(list) + FooterScript(t, write, us)
  }

  /** The address locks are released; the rest happens under the start/finish lock. */
  function UnderStartFinish(list: seq<nat>, body: seq<Op>): seq<Op> {
    ReleaseAddresses(list) + [Acquire(StartFinish)] + [Use(LiveSet)] + body + [Release(StartFinish)]
  }

  /** Registration, ROI changes, calls and returns of unregistered threads. */
  function BroadcastScript(list: seq<nat>, live: seq<Tid>, writes: nat): seq<Op> {
    UnderStartFinish(list, Globally(live, writes))
  }

  /**
    `thread_start_a`: with or without a `tr` line, then the live set and the last-flushed table. Until it is in
    the live set no other thread finds its data.
  */
  function StartScript(t: Tid, traced: bool, live: seq<Tid>, writes: nat): seq<Op> {
    UnderStartFinish(
      [], (if traced then Globally(live, writes) else Critical(t, false)) + [Use(LiveSet)] + WriteTimes(1))
  }

  /** `thread_fini_a`: with or without a `tf` line, then what is left in the buffer. */
  function FinishScript(list: seq<nat>, t: Tid, traced: bool, live: seq<Tid>, writes: nat, write: bool): seq<Op> {
    UnderStartFinish(list, (if traced then Globally(live, writes) else []) + [Use(LiveSet)] + Critical(t, write))
  }

  ghost predicate AllBefore(held: set<Lock>, l: Lock) {
    forall h :: h in held ==> Before(h, l)
  }

  lemma ThenAcquire(held: set<Lock>, script: seq<Op>, l: Lock)
    requires Disciplined(held, script) && AllBefore(After(held, script), l)
    ensures Disciplined(held, script + [Acquire(l)]) && After(held, script + [Acquire(l)]) == After(held, script) + {l}
  {
    assert [Acquire(l)][1..] == [];
    Then(held, script, [Acquire(l)]);
  }

  lemma ThenRelease(held: set<Lock>, script: seq<Op>, l: Lock)
    requires Disciplined(held, script) && l in After(held, script)
    ensures Disciplined(held, script + [Release(l)]) && After(held, script + [Release(l)]) == After(held, script) - {l}
  {
    assert [Release(l)][1..] == [];
    Then(held, script, [Release(l)]);
  }

  lemma ThenUse(held: set<Lock>, script: seq<Op>, d: Data)
    requires Disciplined(held, script) && Guard(d) in After(held, script)
    ensures Disciplined(held, script + [Use(d)]) && After(held, script + [Use(d)]) == After(held, script)
  {
    assert [Use(d)][1..] == [];
    Then(held, script, [Use(d)]);
  }

  predicate Rising(list: seq<nat>) {
    forall i, j :: 0 <= i < j < |list| ==> list[i] < list[j]
  }

  function ThreadLocks(ts: seq<Tid>): set<Lock> {
    set t | t in ts :: ThreadLock(t)
  }

  lemma AddressesSnoc(list: seq<nat>)
    requires list != [] && Rising(list)
    ensures var before, i := list[..|list| - 1], list[|list| - 1];
            && Rising(before) && Addresses(list) == Addresses(before) + {Address(i)}
            && AllBefore(Addresses(before), Address(i))
  {
    assert list == list[..|list| - 1] + [list[|list| - 1]];
  }

  /** Address locks are taken in index order and kept. */
  lemma {:induction false} AcquireAddressesOk(list: seq<nat>)
    requires Rising(list)
    ensures Disciplined({}, AcquireAddresses(list)) && After({}, AcquireAddresses(list)) == Addresses(list)
  {
    if list != [] {
      AddressesSnoc(list);
      var i, before := list[|list| - 1], AcquireAddresses(list[..|list| - 1]);
      AcquireAddressesOk(list[..|list| - 1]);
      ThenAcquire({}, before, Address(i));
      ThenUse({}, before + [Acquire(Address(i))], Stamp(i));
    }
  }

  lemma ReleasedTail(list: seq<nat>, n: nat)
    requires Rising(list) && 0 < n <= |list|
    ensures Address(list[n - 1]) in Addresses(list[n - 1..])
    ensures Addresses(list[n - 1..]) - {Address(list[n - 1])} == Addresses(list[n..])
  {
    assert list[n - 1..] == [list[n - 1]] + list[n..];
  }

  lemma {:induction false} ReleaseAddressesTo(list: seq<nat>, n: nat)
    requires Rising(list) && n <= |list|
    ensures var script := ReleaseAddresses(list[..n]);
            Disciplined(Addresses(list), script) && After(Addresses(list), script) == Addresses(list[n..])
  {
    if n > 0 {
      ReleaseAddressesTo(list, n - 1);
      assert list[..n][..n - 1] == list[..n - 1];
      ReleasedTail(list, n);
      var i, before := list[n - 1], ReleaseAddresses(list[..n - 1]);
      ThenUse(Addresses(list), before, Stamp(i));
      ThenRelease(Addresses(list), before + [Use(Stamp(i))], Address(i));
    }
  }

  lemma ReleaseAddressesOk(list: seq<nat>)
    requires Rising(list)
    ensures Disciplined(Addresses(list), ReleaseAddresses(list)) && After(Addresses(list), ReleaseAddresses(list)) == {}
  {
    ReleaseAddressesTo(list, |list|);
    assert list[..|list|] == list;
  }

  /** The file lock is taken above everything and released at once. */
  lemma {:induction false} WritesOk(held: set<Lock>, n: nat)
    requires AllBefore(held, File)
    ensures Disciplined(held, WriteTimes(n)) && After(held, WriteTimes(n)) == held
  {
    if n > 0 {
      WritesOk(held, n - 1);
      ThenAcquire(held, WriteTimes(n - 1), File);
      ThenUse(held, WriteTimes(n - 1) + [Acquire(File)], FileAndTable);
      ThenRelease(held, WriteTimes(n - 1) + [Acquire(File)] + [Use(FileAndTable)], File);
      assert held + {File} - {File} == held;
    }
  }

  /** A thread's own critical section may be entered whenever only locks below it are held. */
  lemma CriticalOk(held: set<Lock>, t: Tid, write: bool)
    requires AllBefore(held, ThreadLock(t))
    ensures Disciplined(held, Critical(t, write)) && After(held, Critical(t, write)) == held
  {
    var inside := held + {ThreadLock(t)};
    assert [] + [Acquire(ThreadLock(t))] == [Acquire(ThreadLock(t))];
    ThenAcquire(held, [], ThreadLock(t));
    ThenUse(held, [Acquire(ThreadLock(t))], ThreadState(t));
    WritesOk(inside, Bit(write));
    var begun := [Acquire(ThreadLock(t))] + [Use(ThreadState(t))];
    Then(held, begun, WriteTimes(Bit(write)));
    ThenRelease(held, begun + WriteTimes(Bit(write)), ThreadLock(t));
    assert inside - {ThreadLock(t)} == held;
  }

  lemma {:induction false} CriticalsOk(held: set<Lock>, us: seq<(Tid, bool)>)
    requires forall h :: h in held ==> Level(h) < 2
    ensures Disciplined(held, Criticals(us)) && After(held, Criticals(us)) == held
  {
    if us != [] {
      var u := us[|us| - 1];
      CriticalsOk(held, us[..|us| - 1]);
      CriticalOk(held, u.0, u.1);
      Then(held, Criticals(us[..|us| - 1]), Critical(u.0, u.1));
    }
  }

  /** Flushing others respects the order even while address locks are held. */
  lemma FlushOk(held: set<Lock>, us: seq<(Tid, bool)>)
    requires AddressesOnly(held)
    ensures Disciplined(held, Flush(us)) && After(held, Flush(us)) == held
  {
    if us != [] {
      assert [] + [Acquire(StartFinish)] == [Acquire(StartFinish)];
      ThenAcquire(held, [], StartFinish);
      ThenUse(held, [Acquire(StartFinish)], LiveSet);
      CriticalsOk(held + {StartFinish}, us);
      var begun := [Acquire(StartFinish)] + [Use(LiveSet)];
      Then(held, begun, Criticals(us));
      ThenRelease(held, begun + Criticals(us), StartFinish);
      assert held + {StartFinish} - {StartFinish} == held;
    }
  }

  lemma ThreadLocksSnoc(ts: seq<Tid>)
    requires ts != [] && Rising(ts)
    ensures var before, t := ts[..|ts| - 1], ts[|ts| - 1];
            && Rising(before) && ThreadLocks(ts) == ThreadLocks(before) + {ThreadLock(t)}
            && AllBefore(ThreadLocks(before), ThreadLock(t))
  {
    assert ts == ts[..|ts| - 1] + [ts[|ts| - 1]];
  }

  /** All thread locks, in order of thread id, above the start/finish lock. */
  lemma {:induction false} AcquireThreadsOk(held: set<Lock>, ts: seq<Tid>)
    requires Rising(ts) && forall h :: h in held ==> Level(h) < 2
    ensures Disciplined(held, AcquireThreads(ts)) && After(held, AcquireThreads(ts)) == held + ThreadLocks(ts)
  {
    if ts != [] {
      ThreadLocksSnoc(ts);
      var t, before := ts[|ts| - 1], AcquireThreads(ts[..|ts| - 1]);
      AcquireThreadsOk(held, ts[..|ts| - 1]);
      ThenAcquire(held, before, ThreadLock(t));
      ThenUse(held, before + [Acquire(ThreadLock(t))], ThreadState(t));
    }
  }

  lemma ReleasedThreads(held: set<Lock>, ts: seq<Tid>, n: nat)
    requires Rising(ts) && 0 < n <= |ts| && forall h :: h in held ==> Level(h) < 2
    ensures ThreadLock(ts[n - 1]) in ThreadLocks(ts[n - 1..])
    ensures held + ThreadLocks(ts[n - 1..]) - {ThreadLock(ts[n - 1])} == held + ThreadLocks(ts[n..])
  {
    assert ts[n - 1..] == [ts[n - 1]] + ts[n..];
  }

  lemma {:induction false} ReleaseThreadsTo(held: set<Lock>, ts: seq<Tid>, n: nat)
    requires Rising(ts) && n <= |ts| && forall h :: h in held ==> Level(h) < 2
    ensures var script, all := ReleaseThreads(ts[..n]), held + ThreadLocks(ts);
            Disciplined(all, script) && After(all, script) == held + ThreadLocks(ts[n..])
  {
    if n > 0 {
      ReleaseThreadsTo(held, ts, n - 1);
      assert ts[..n][..n - 1] == ts[..n - 1];
      ReleasedThreads(held, ts, n);
      var t, before := ts[n - 1], ReleaseThreads(ts[..n - 1]);
      ThenUse(held + ThreadLocks(ts), before, ThreadState(t));
      ThenRelease(held + ThreadLocks(ts), before + [Use(ThreadState(t))], ThreadLock(t));
    }
  }

  lemma GloballyOk(held: set<Lock>, live: seq<Tid>, writes: nat)
    requires Rising(live) && forall h :: h in held ==> Level(h) < 2
    ensures Disciplined(held, Globally(live, writes)) && After(held, Globally(live, writes)) == held
  {
    AcquireThreadsOk(held, live);
    WritesOk(held + ThreadLocks(live), writes);
    Then(held, AcquireThreads(live), WriteTimes(writes));
    ReleaseThreadsTo(held, live, |live|);
    assert live[..|live|] == live && held + ThreadLocks(live[|live|..]) == held;
    Then(held, AcquireThreads(live) + WriteTimes(writes), ReleaseThreads(live));
  }

  // ----- every routine of the tracer -----

  /** The locks of one instruction are taken by index, whatever its operands are. */
  lemma LockListScript(a: Access, bs: int, n: int)
    requires Legal(a) && bs >= 1 && n >= 1
    ensures Routine({}, AcquireAddresses(LockList(a, bs, n)))
    ensures After({}, AcquireAddresses(LockList(a, bs, n))) == Addresses(LockList(a, bs, n))
  {
    LockListMeaning(a, bs, n);
    AcquireAddressesOk(LockList(a, bs, n));
  }

  lemma HeaderOk(list: seq<nat>, t: Tid)
    requires Rising(list)
    ensures Routine(Addresses(list), HeaderScript(list, t)) && After(Addresses(list), HeaderScript(list, t)) == {}
  {
    ReleaseAddressesOk(list);
    CriticalOk({}, t, false);
    Then(Addresses(list), ReleaseAddresses(list), Critical(t, false));
  }

  lemma FooterOk(list: seq<nat>, t: Tid, write: bool, us: seq<(Tid, bool)>)
    ensures Routine(Addresses(list), FooterScript(t, write, us))
    ensures After(Addresses(list), FooterScript(t, write, us)) == Addresses(list)
  {
    CriticalOk(Addresses(list), t, write);
    FlushOk(Addresses(list), us);
    Then(Addresses(list), Critical(t, write), Flush(us));
  }

  /** `memory_access_release_a`: instructions without memory operands only release locks. */
  lemma ReleaseOk(list: seq<nat>)
    requires Rising(list)
    ensures Routine(Addresses(list), ReleaseAddresses(list)) && After(Addresses(list), ReleaseAddresses(list)) == {}
  {
    ReleaseAddressesOk(list);
  }

  lemma CallOk(list: seq<nat>, t: Tid, write: bool, us: seq<(Tid, bool)>)
    requires Rising(list)
    ensures Routine(Addresses(list), CallScript(list, t, write, us))
    ensures After(Addresses(list), CallScript(list, t, write, us)) == {}
  {
    ReleaseAddressesOk(list);
    FooterDisciplined(t, write, us);
    hide FooterScript, Disciplined, After;
    Then(Addresses(list), ReleaseAddresses(list), FooterScript(t, write, us));
  }

  lemma FooterDisciplined(t: Tid, write: bool, us: seq<(Tid, bool)>)
    ensures Disciplined({}, FooterScript(t, write, us)) && After({}, FooterScript(t, write, us)) == {}
  {
    CriticalOk({}, t, write);
    FlushOk({}, us);
    Then({}, Critical(t, write), Flush(us));
  }

  /** What runs under the start/finish lock, after the address locks are released. */
  lemma UnderStartFinishOk(list: seq<nat>, body: seq<Op>)
    requires Rising(list) && Disciplined({StartFinish}, body) && After({StartFinish}, body) == {StartFinish}
    ensures Routine(Addresses(list), UnderStartFinish(list, body))
    ensures After(Addresses(list), UnderStartFinish(list, body)) == {}
  {
    var held, r := Addresses(list), ReleaseAddresses(list);
    ReleaseAddressesOk(list);
    ThenAcquire(held, r, StartFinish);
    assert {} + {StartFinish} == {StartFinish};
    ThenUse(held, r + [Acquire(StartFinish)], LiveSet);
    var begun := r + [Acquire(StartFinish)] + [Use(LiveSet)];
    Then(held, begun, body);
    ThenRelease(held, begun + body, StartFinish);
  }

  lemma BroadcastOk(list: seq<nat>, live: seq<Tid>, writes: nat)
    requires Rising(list) && Rising(live)
    ensures Routine(Addresses(list), BroadcastScript(list, live, writes))
    ensures After(Addresses(list), BroadcastScript(list, live, writes)) == {}
  {
    GloballyOk({StartFinish}, live, writes);
    UnderStartFinishOk(list, Globally(live, writes));
  }

  lemma StartOk(t: Tid, traced: bool, live: seq<Tid>, writes: nat)
    requires Rising(live)
    ensures Routine(Addresses([]), StartScript(t, traced, live, writes))
    ensures After(Addresses([]), StartScript(t, traced, live, writes)) == {}
  {
    GloballyOk({StartFinish}, live, writes);
    CriticalOk({StartFinish}, t, false);
    WritesOk({StartFinish}, 1);
    hide Disciplined, After, Globally, Critical, WriteTimes, UnderStartFinish, Routine;
    var first := if traced then Globally(live, writes) else Critical(t, false);
    ThenUse({StartFinish}, first, LiveSet);
    Then({StartFinish}, first + [Use(LiveSet)], WriteTimes(1));
    UnderStartFinishOk([], first + [Use(LiveSet)] + WriteTimes(1));
  }

  lemma FinishOk(list: seq<nat>, t: Tid, traced: bool, live: seq<Tid>, writes: nat, write: bool)
    requires Rising(list) && Rising(live)
    ensures Routine(Addresses(list), FinishScript(list, t, traced, live, writes, write))
    ensures After(Addresses(list), FinishScript(list, t, traced, live, writes, write)) == {}
  {
    GloballyOk({StartFinish}, live, writes);
    CriticalOk({StartFinish}, t, write);
    assert Disciplined({StartFinish}, []) && After({StartFinish}, []) == {StartFinish};
    hide Disciplined, After, Globally, Critical, UnderStartFinish, Routine;
    var first := if traced then Globally(live, writes) else [];
    ThenUse({StartFinish}, first, LiveSet);
    Then({StartFinish}, first + [Use(LiveSet)], Critical(t, write));
    UnderStartFinishOk(list, first + [Use(LiveSet)] + Critical(t, write));
  }
}
